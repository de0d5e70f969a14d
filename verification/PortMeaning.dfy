/** The ports a range text names, and for which numbers its range has exactly these. */
module PortMeaning {
  import opened Common
  import opened PortText
  import opened PortRanges

  predicate InPorts(p: Ports, k: nat) {
    p.first <= k <= p.last
  }

  /** The ports a form names; a round bracket leaves its end out. */
  predicate Covers(f: Form, k: nat)
    requires WellFormed(f)
  {
    match f
    case Interval(open, a, b, close) =>
      && (if open == '(' then Value(a) < k else Value(a) <= k)
      && (if close == ')' then k < Value(b) else k <= Value(b))
    case Pair(a, b) => Value(a) <= k <= Value(b)
    case Above(a) => Value(a) < k
    case Below(a) => k < Value(a)
    case Single(a) => k == Value(a)
  }

  /** Two ends that are in sixteen bits what they are as numbers, or are no range either way. */
  predicate EndsFit(first: int, last: int) {
    || (first < 65536 && 0 <= last < 65536)
    || (0 <= last < first && Cast(last) < Cast(first))
  }

  /** The numbers fit sixteen bits where they have to. */
  predicate InBounds(f: Form)
    requires WellFormed(f)
  {
    match f
    case Interval(open, a, b, close) =>
      EndsFit(if open == '(' then Value(a) + 1 else Value(a), if close == ')' then Value(b) - 1 else Value(b))
    case Pair(a, b) => EndsFit(Value(a), Value(b))
    case Above(a) => Value(a) < 65535
    case Below(a) => 1 <= Value(a) <= 65536
    case Single(a) => Value(a) < 65536
  }

  predicate SamePorts(f: Form)
    requires WellFormed(f)
  {
    forall k: nat :: k < 65536 ==> (InPorts(Meaning(f), k) <==> Covers(f, k))
  }

  lemma NumberBound(a: string)
    requires IsNumber(a)
    ensures Value(a) < 100000
  {
    ValueBelow(a);
    assert Pow10(2) == 100;
    assert Pow10(4) == 10000;
    assert Pow10(5) == 100000;
    PowerGrows(|a|);
  }

  lemma PowerGrows(k: nat)
    requires 1 <= k <= 5
    ensures Pow10(k) <= Pow10(5)
  {
    assert k == 1 || k == 2 || k == 3 || k == 4 || k == 5;
    assert Pow10(2) == 100;
    assert Pow10(4) == 10000;
  }

  lemma RangeRight(a: int, b: int, k: nat)
    requires 0 <= a <= 100000 && -1 <= b < 100000 && k < PORTS && EndsFit(a, b)
    ensures InPorts(Ports(Cast(a), Cast(b)), k) <==> a <= k <= b
  {
  }

  lemma RangeWrong(a: int, b: int) returns (k: nat)
    requires 0 <= a <= 100000 && -1 <= b < 100000 && !EndsFit(a, b)
    ensures k < PORTS && InPorts(Ports(Cast(a), Cast(b)), k) != (a <= k <= b)
  {
    k := if a < PORTS then PORTS - 1 else Cast(a);
  }

  lemma OneRight(n: nat, k: nat)
    requires n < 100000 && k < PORTS
    ensures n < PORTS ==> (InPorts(Ports(Cast(n), Cast(n)), k) <==> k == n)
    ensures n < PORTS - 1 ==> (InPorts(Ports(Cast(n + 1), PORTS - 1), k) <==> n < k)
    ensures 1 <= n <= PORTS ==> (InPorts(Ports(0, Cast(n - 1)), k) <==> k < n)
  {
  }

  lemma OneWrong(n: nat)
    requires n < 100000
    ensures n >= PORTS ==> InPorts(Ports(Cast(n), Cast(n)), Cast(n)) != (Cast(n) == n)
    ensures n >= PORTS - 1 ==> InPorts(Ports(Cast(n + 1), PORTS - 1), PORTS - 1) != (n < PORTS - 1)
    ensures !(1 <= n <= PORTS) ==> InPorts(Ports(0, Cast(n - 1)), PORTS - 1) != (PORTS - 1 < n)
  {
  }

  /** The ends of a form with two numbers, as numbers, both of them in the range. */
  function Ends(f: Form): (int, int)
    requires WellFormed(f) && (f.Interval? || f.Pair?)
  {
    if f.Pair? then (Value(f.a), Value(f.b))
    else
      (if f.open == '(' then Value(f.a) + 1 else Value(f.a), if f.close == ')' then Value(f.b) - 1 else Value(f.b))
  }

  lemma EndsAre(f: Form, k: nat)
    requires WellFormed(f) && (f.Interval? || f.Pair?)
    ensures Meaning(f) == Ports(Cast(Ends(f).0), Cast(Ends(f).1))
    ensures Covers(f, k) <==> Ends(f).0 <= k <= Ends(f).1
    ensures InBounds(f) <==> EndsFit(Ends(f).0, Ends(f).1)
    ensures 0 <= Ends(f).0 <= 100000 && -1 <= Ends(f).1 < 100000
  {
    NumberBound(f.a);
    NumberBound(f.b);
  }

  /** A form's range has exactly the ports the form names when its numbers are in bounds, and only then. */
  lemma RightInBounds(f: Form)
    requires WellFormed(f)
    ensures SamePorts(f) <==> InBounds(f)
  {
    if InBounds(f) { WithinBounds(f); } else { OutOfBounds(f); }
  }

  lemma WithinBounds(f: Form)
    requires WellFormed(f) && InBounds(f)
    ensures SamePorts(f)
  {
    NumberBound(f.a);
    forall k: nat | k < PORTS ensures InPorts(Meaning(f), k) <==> Covers(f, k) {
      if f.Pair? || f.Interval? {
        EndsAre(f, k);
        RangeRight(Ends(f).0, Ends(f).1, k);
      } else {
        OneRight(Value(f.a), k);
      }
    }
  }

  lemma OutOfBounds(f: Form)
    requires WellFormed(f) && !InBounds(f)
    ensures !SamePorts(f)
  {
    if f.Pair? || f.Interval? {
      EndsAre(f, 0);
      var k := RangeWrong(Ends(f).0, Ends(f).1);
      EndsAre(f, k);
      assert InPorts(Meaning(f), k) != Covers(f, k);
    } else {
      NumberBound(f.a);
      OneWrong(Value(f.a));
      var k := if f.Single? then Cast(Value(f.a)) else PORTS - 1;
      assert InPorts(Meaning(f), k) != Covers(f, k);
    }
  }

  /** A range read from a text has exactly the ports that the text names when its numbers are in bounds,
      and only then. */
  lemma TextNamesPorts(s: string, f: Form)
    requires Written(s, f)
    ensures (forall k: nat :: k < 65536 ==> (InPorts(Parsed(s), k) <==> Covers(f, k))) <==> InBounds(f)
  {
    ParsedAs(s, f);
    RightInBounds(f);
  }

  // ----- spaces

  predicate AllSpaces(w: string) {
    forall i :: 0 <= i < |w| ==> w[i] as int in {9, 10, 11, 12, 13, 32}
  }

  lemma {:induction false} SpacesAre(w: string)
    requires AllSpaces(w)
    ensures All(IsSpace, w)
  {
    if w != "" {
      SpaceCharacters(w[0]);
      SpacesAre(w[1..]);
    }
  }

  lemma SpacedField(w: string, a: string, rest: string)
    requires AllSpaces(w) && IsNumber(a) && !Starts(IsDigit, rest)
    ensures Field(w + (a + rest), a, rest)
  {
    SpacesAre(w);
  }

  lemma SpacedToken(w: string, c: char, rest: string)
    requires AllSpaces(w)
    ensures Token(w + ([c] + rest), c, rest)
  {
    SpacesAre(w);
  }

  lemma TokenNoDigit(w: string, c: char, rest: string)
    requires AllSpaces(w) && !IsDigit(c)
    ensures !Starts(IsDigit, w + ([c] + rest))
  {
    if w != "" { assert (w + ([c] + rest))[0] == w[0]; }
  }

  /** Two numbers are a pair with any spaces on both sides of a dash, or between it and a second dash on its
      right and the number. */
  lemma SpacedPair(a: string, u: string, dashes: string, v: string, b: string)
    requires IsNumber(a) && IsNumber(b) && AllSpaces(u) && AllSpaces(v) && (dashes == "-" || dashes == "--")
    ensures Written(a + (u + (dashes + (v + b))), Pair(a, b))
  {
    Dashes(dashes, v + b);
    assert b + "" == b;
    SpacedField(v, b, "");
    DashedPair(a, u, dashes[1..] + (v + b), v + b, b);
  }

  lemma Dashes(dashes: string, rest: string)
    requires dashes == "-" || dashes == "--"
    ensures dashes + rest == ['-'] + (dashes[1..] + rest) && MaybeDash(dashes[1..] + rest, rest)
  {
    if dashes == "-" {
      assert dashes[1..] + rest == rest;
    } else {
      assert dashes[1..] == "-";
    }
  }

  lemma DashedPair(a: string, u: string, r2: string, r3: string, b: string)
    requires IsNumber(a) && AllSpaces(u) && MaybeDash(r2, r3) && Field(r3, b, "")
    ensures Written(a + (u + (['-'] + r2)), Pair(a, b))
  {
    SpacedToken(u, '-', r2);
    assert PairParts(a + (u + (['-'] + r2)), Pair(a, b), u + (['-'] + r2), r2, r3);
  }

  /** An interval may have any spaces around its numbers and the comma. */
  lemma SpacedInterval(open: char, t: string, a: string, u: string, v: string, b: string, w: string, close: char)
    requires (open == '[' || open == '(') && (close == ']' || close == ')') && IsNumber(a) && IsNumber(b)
    requires AllSpaces(t) && AllSpaces(u) && AllSpaces(v) && AllSpaces(w)
    ensures Written([open] + (t + (a + (u + ("," + (v + (b + (w + [close]))))))), Interval(open, a, b, close))
  {
    var r3 := w + ([close] + "");
    var r2 := v + (b + r3);
    var r1 := u + ([','] + r2);
    var s := [open] + (t + (a + r1));
    assert [close] + "" == [close];
    TokenNoDigit(w, close, "");
    TokenNoDigit(u, ',', r2);
    SpacedField(t, a, r1);
    SpacedToken(u, ',', r2);
    SpacedField(v, b, r3);
    SpacedToken(w, close, "");
    assert s[1..] == t + (a + r1);
    assert IntervalParts(s, Interval(open, a, b, close), r1, r2, r3);
  }
}
