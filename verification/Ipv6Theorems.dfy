/** The ordered-choice grammar accepts exactly what the counting rule describes.

    The functions `Take...` compute what the grammar's rules leave of a string; the lemmas `...Is`
    prove that they do. */
module Ipv6Theorems {
  import opened Common
  import opened Peg
  import opened Ipv6Grammar
  import opened Ipv6Reader

  // ----- what the rules compute

  /** The number of hexadecimal digits `s` starts with, up to `most`. */
  function HexRun(s: string, most: nat): (n: nat)
    ensures n <= |s| && n <= most
  {
    if most > 0 && s != "" && IsHex(s[0]) then 1 + HexRun(s[1..], most - 1) else 0
  }

  function TakeH16(s: string): Option<string> {
    var n := HexRun(s, 4);
    if n > 0 then Some(s[n..]) else None
  }

  function TakeGroup(s: string): Option<string> {
    match TakeH16(s)
    case None => None
    case Some(rest) => TakeColon(rest)
  }

  function TakeDotOctet(s: string): Option<string> {
    if s != "" && s[0] == '.' then TakeOctet(s[1..]) else None
  }

  function TakeDotOctets(n: nat, s: string): Option<string> {
    if n == 0 then Some(s)
    else
      match TakeDotOctet(s)
      case None => None
      case Some(rest) => TakeDotOctets(n - 1, rest)
  }

  function TakeIpv4(s: string): Option<string> {
    match TakeOctet(s)
    case None => None
    case Some(rest) => TakeDotOctets(3, rest)
  }

  function TakeLs32(s: string): Option<string> {
    match TakeGroup(s)
    case Some(rest) => TakeH16(rest)
    case None => TakeIpv4(s)
  }

  const Reading := Reader(TakeGroup, TakeH16, TakeLs32)

  // ----- the rules compute it

  lemma ThenIs(a: Expr, b: Expr, s: string)
    ensures Parse(Then(a, b), s) == match Parse(a, s) case None => None case Some(rest) => Parse(b, rest)
  {
  }

  lemma {:induction false} HexRepeat(e: Expr, lo: nat, hi: nat, s: string)
    requires lo <= 1 && e == HexDigit
    ensures ParseRepeat(lo, hi, e, s) ==
            if lo == 0 || hi == 0 || HexRun(s, hi) > 0 then Some(s[HexRun(s, hi)..]) else None
    decreases hi
  {
    if hi > 0 && s != "" && IsHex(s[0]) {
      HexRepeat(e, 0, hi - 1, s[1..]);
      assert s[1..][HexRun(s[1..], hi - 1)..] == s[HexRun(s, hi)..];
    }
  }

  lemma H16Is(s: string)
    ensures Parse(H16, s) == TakeH16(s)
  {
    HexRepeat(HexDigit, 1, 4, s);
  }

  lemma ColonIs(s: string)
    ensures Parse(Colon, s) == TakeColon(s)
  {
  }

  lemma GroupIs(s: string)
    ensures Parse(Group, s) == TakeGroup(s)
  {
    ThenIs(H16, Colon, s);
    H16Is(s);
    if TakeH16(s).Some? { ColonIs(TakeH16(s).value); }
  }

  lemma DotOctetIs(s: string)
    ensures Parse(Then(Text("."), Octet), s) == TakeDotOctet(s)
  {
    ThenIs(Text("."), Octet, s);
  }

  lemma {:induction false} DotOctetsIs(e: Expr, n: nat, s: string)
    requires e == Then(Text("."), Octet)
    ensures ParseRepeat(n, n, e, s) == TakeDotOctets(n, s)
  {
    DotOctetIs(s);
    if n > 0 && TakeDotOctet(s).Some? {
      DotOctetsIs(e, n - 1, TakeDotOctet(s).value);
    }
  }

  lemma Ipv4Is(s: string)
    ensures Parse(Ipv4, s) == TakeIpv4(s)
  {
    var e := Then(Text("."), Octet);
    ThenIs(Octet, Repeat(3, 3, e), s);
    if TakeOctet(s).Some? { DotOctetsIs(e, 3, TakeOctet(s).value); }
  }

  lemma GroupHeadIs(e: Expr, s: string)
    ensures Parse(Then(H16, Then(Colon, e)), s) ==
            match TakeGroup(s) case None => None case Some(rest) => Parse(e, rest)
  {
    ThenIs(H16, Then(Colon, e), s);
    H16Is(s);
    if TakeH16(s).Some? {
      ThenIs(Colon, e, TakeH16(s).value);
      ColonIs(TakeH16(s).value);
    }
  }

  lemma Ls32Is(s: string)
    ensures Parse(Ls32, s) == TakeLs32(s)
  {
    GroupHeadIs(H16, s);
    Ipv4Is(s);
    GroupExcludesIpv4(s);
    if TakeGroup(s).Some? { H16Is(TakeGroup(s).value); }
    assert Parse(Ls32, s) ==
      var r := Parse(Then(H16, Then(Colon, H16)), s); if r.Some? then r else Parse(Ipv4, s);
  }

  lemma {:induction false} GroupsIs(e: Expr, lo: nat, hi: nat, s: string)
    requires e == Group
    ensures ParseRepeat(lo, hi, e, s) == Groups(Reading, lo, hi, s)
    decreases hi
  {
    GroupIs(s);
    if hi > 0 && TakeGroup(s).Some? {
      GroupsIs(e, if lo == 0 then 0 else lo - 1, hi - 1, TakeGroup(s).value);
    }
  }

  lemma RepeatIs(lo: nat, hi: nat, s: string)
    ensures Parse(Repeat(lo, hi, Group), s) == Groups(Reading, lo, hi, s)
  {
    GroupsIs(Group, lo, hi, s);
  }

  lemma {:induction false} AfterFromGroups(n: nat, s: string)
    ensures After(Reading, n + 2, s) ==
      match Groups(Reading, n, n, s) case None => None case Some(rest) => TakeLs32(rest)
  {
    if n > 0 && TakeGroup(s).Some? {
      AfterFromGroups(n - 1, TakeGroup(s).value);
    }
  }

  lemma AfterIs(n: nat, s: string)
    ensures Parse(Then(Repeat(n, n, Group), Ls32), s) == After(Reading, n + 2, s)
  {
    ThenIs(Repeat(n, n, Group), Ls32, s);
    RepeatIs(n, n, s);
    AfterFromGroups(n, s);
    if Groups(Reading, n, n, s).Some? { Ls32Is(Groups(Reading, n, n, s).value); }
  }

  lemma AfterThreeIs(s: string)
    ensures Parse(Then(H16, Then(Colon, Ls32)), s) == After(Reading, 3, s)
  {
    GroupHeadIs(Ls32, s);
    if TakeGroup(s).Some? { Ls32Is(TakeGroup(s).value); }
  }

  // ----- single groups and octets

  lemma {:induction false} HexRunIs(s: string, most: nat)
    ensures forall i :: 0 <= i < HexRun(s, most) ==> IsHex(s[i])
    ensures HexRun(s, most) < most && HexRun(s, most) < |s| ==> !IsHex(s[HexRun(s, most)])
  {
    if most > 0 && s != "" && IsHex(s[0]) {
      HexRunIs(s[1..], most - 1);
      forall i | 0 <= i < HexRun(s, most) ensures IsHex(s[i]) {
        if i > 0 { assert s[i] == s[1..][i - 1]; }
      }
    }
  }

  lemma HexRunOf(g: string, rest: string, most: nat)
    requires |g| <= most && forall i :: 0 <= i < |g| ==> IsHex(g[i])
    requires rest == "" || !IsHex(rest[0])
    ensures HexRun(g + rest, most) == |g|
  {
    var s := g + rest;
    HexRunIs(s, most);
    assert forall i :: 0 <= i < |g| ==> s[i] == g[i];
    assert rest != "" ==> s[|g|] == rest[0];
  }

  lemma GroupTaken(g: string, t: string)
    requires IsGroup(g)
    ensures TakeGroup(g + (":" + t)) == Some(t)
  {
    var s := g + (":" + t);
    HexRunOf(g, ":" + t, 4);
    assert s[|g|..] == ":" + t;
  }

  lemma TakenGroup(s: string, t: string) returns (g: string)
    requires TakeGroup(s) == Some(t)
    ensures IsGroup(g) && s == g + (":" + t)
  {
    HexRunIs(s, 4);
    var n := HexRun(s, 4);
    g := s[..n];
    assert s[n..] == ":" + t;
  }

  lemma WholeGroup(s: string)
    ensures TakeH16(s) == Some("") <==> IsGroup(s)
    ensures IsGroup(s) ==> TakeGroup(s) == None
  {
    HexRunIs(s, 4);
    if IsGroup(s) {
      HexRunOf(s, "", 4);
      assert s + "" == s;
    }
    if TakeH16(s) == Some("") {
      assert s == s[..HexRun(s, 4)];
    }
  }

  lemma OctetTaken(a: string, rest: string)
    requires IsOctet(a) && (rest == "" || !IsDigit(rest[0]))
    ensures TakeOctet(a + rest) == Some(rest)
  {
    var s := a + rest;
    DigitRunIsDigits(s);
    assert forall i :: 0 <= i < |a| ==> s[i] == a[i];
    assert rest != "" ==> s[|a|] == rest[0];
    assert s[..|a|] == a && s[|a|..] == rest;
  }

  lemma OctetWas(s: string, rest: string) returns (a: string)
    requires TakeOctet(s) == Some(rest)
    ensures IsOctet(a) && s == a + rest
    ensures rest == "" || !IsDigit(rest[0])
  {
    DigitRunIsDigits(s);
    a := s[..DigitRun(s)];
  }

  lemma DotOctetTaken(a: string, rest: string)
    requires IsOctet(a) && (rest == "" || !IsDigit(rest[0]))
    ensures TakeDotOctet("." + (a + rest)) == Some(rest)
  {
    OctetTaken(a, rest);
    assert ("." + (a + rest))[1..] == a + rest;
  }

  lemma DotOctetWas(s: string, rest: string) returns (a: string)
    requires TakeDotOctet(s) == Some(rest)
    ensures IsOctet(a) && s == "." + (a + rest)
    ensures rest == "" || !IsDigit(rest[0])
  {
    a := OctetWas(s[1..], rest);
    assert s == "." + s[1..];
  }

  lemma ThreeDotOctets(s: string, r1: string, r2: string, r3: string)
    requires TakeDotOctet(s) == Some(r1) && TakeDotOctet(r1) == Some(r2) && TakeDotOctet(r2) == Some(r3)
    ensures TakeDotOctets(3, s) == Some(r3)
  {
    assert TakeDotOctets(1, r2) == Some(r3);
    assert TakeDotOctets(2, r1) == Some(r3);
  }

  lemma Ipv4Taken(a: string, b: string, c: string, d: string)
    requires IsOctet(a) && IsOctet(b) && IsOctet(c) && IsOctet(d)
    ensures TakeIpv4(a + ("." + (b + ("." + (c + ("." + d)))))) == Some("")
  {
    var r3 := "." + d;
    var r2 := "." + (c + r3);
    var r1 := "." + (b + r2);
    OctetTaken(a, r1);
    DotOctetTaken(b, r2);
    DotOctetTaken(c, r3);
    assert d + "" == d;
    DotOctetTaken(d, "");
    ThreeDotOctets(r1, r2, r3, "");
  }

  lemma DotOctetsWere(s: string) returns (r1: string, r2: string)
    requires TakeDotOctets(3, s) == Some("")
    ensures TakeDotOctet(s) == Some(r1) && TakeDotOctet(r1) == Some(r2) && TakeDotOctet(r2) == Some("")
  {
    r1 := TakeDotOctet(s).value;
    assert TakeDotOctets(2, r1) == Some("");
    r2 := TakeDotOctet(r1).value;
    assert TakeDotOctets(1, r2) == Some("");
    assert TakeDotOctets(0, TakeDotOctet(r2).value) == Some("");
  }

  lemma Ipv4Was(s: string)
    requires TakeIpv4(s) == Some("")
    ensures IsIpv4(s)
  {
    var r0 := TakeOctet(s).value;
    var a := OctetWas(s, r0);
    var r1, r2 := DotOctetsWere(r0);
    var b := DotOctetWas(r0, r1);
    var c := DotOctetWas(r1, r2);
    var d := DotOctetWas(r2, "");
    DottedFrom(s, r0, r1, r2, a, b, c, d);
  }

  lemma DottedFrom(s: string, r0: string, r1: string, r2: string, a: string, b: string, c: string, d: string)
    requires s == a + r0 && r0 == "." + (b + r1) && r1 == "." + (c + r2) && r2 == "." + (d + "")
    ensures Dotted(s, a, b, c, d)
  {
    assert d + "" == d;
    assert r1 == "." + (c + ("." + d));
    assert r0 == "." + (b + ("." + (c + ("." + d))));
  }

  lemma WholeIpv4(s: string)
    ensures TakeIpv4(s) == Some("") <==> IsIpv4(s)
  {
    if IsIpv4(s) {
      var a, b, c, d :| Dotted(s, a, b, c, d) && IsOctet(a) && IsOctet(b) && IsOctet(c) && IsOctet(d);
      Ipv4Taken(a, b, c, d);
    }
    if TakeIpv4(s) == Some("") { Ipv4Was(s); }
  }

  /** The rule for IPv4 addresses accepts the texts of four octets with dots between them. */
  lemma Ipv4Rule(s: string)
    ensures Accepts(Ipv4, s) <==> IsIpv4(s)
  {
    Ipv4Is(s);
    WholeIpv4(s);
  }

  predicate EndsNumber(rest: string) {
    rest == "" || !IsDigit(rest[0])
  }

  /** A printed number is read as an octet exactly up to 255. */
  lemma OctetReads(n: nat, rest: string)
    requires EndsNumber(rest)
    ensures TakeOctet(Decimal(n) + rest) == if n <= 255 then Some(rest) else None
  {
    var a := Decimal(n);
    var s := a + rest;
    PrintedValue(n);
    DigitRunIsDigits(s);
    assert forall i :: 0 <= i < |a| ==> s[i] == a[i];
    assert rest != "" ==> s[|a|] == rest[0];
    assert s[..|a|] == a && s[|a|..] == rest;
  }

  lemma DotOctetReads(n: nat, rest: string)
    requires EndsNumber(rest)
    ensures TakeDotOctet("." + (Decimal(n) + rest)) == if n <= 255 then Some(rest) else None
  {
    OctetReads(n, rest);
    assert ("." + (Decimal(n) + rest))[1..] == Decimal(n) + rest;
  }

  /** Dots and numbers, as they are left while the address is read. */
  lemma DotOctetsRead(b: nat, c: nat, d: nat)
    ensures var r3 := "." + (Decimal(d) + ""); var r2 := "." + (Decimal(c) + r3);
      TakeDotOctets(3, "." + (Decimal(b) + r2)) == if b <= 255 && c <= 255 && d <= 255 then Some("") else None
  {
    var r3 := "." + (Decimal(d) + "");
    var r2 := "." + (Decimal(c) + r3);
    DotOctetReads(d, "");
    DotOctetReads(c, r3);
    DotOctetReads(b, r2);
    assert TakeDotOctets(1, r3) == if d <= 255 then Some("") else None;
    assert TakeDotOctets(2, r2) == if c <= 255 && d <= 255 then Some("") else None;
  }

  lemma FromTheRight(a: string, b: string, c: string, d: string)
    ensures a + "." + b + "." + c + "." + d == a + ("." + (b + ("." + (c + ("." + (d + ""))))))
  {
  }

  /** Of four printed numbers with dots between them the rule accepts exactly those of at most 255 each. */
  lemma Ipv4Numbers(a: nat, b: nat, c: nat, d: nat)
    ensures Accepts(Ipv4, Decimal(a) + "." + Decimal(b) + "." + Decimal(c) + "." + Decimal(d)) <==>
            a <= 255 && b <= 255 && c <= 255 && d <= 255
  {
    var r3 := "." + (Decimal(d) + "");
    var r2 := "." + (Decimal(c) + r3);
    var r1 := "." + (Decimal(b) + r2);
    FromTheRight(Decimal(a), Decimal(b), Decimal(c), Decimal(d));
    OctetReads(a, r1);
    DotOctetsRead(b, c, d);
    Ipv4Is(Decimal(a) + r1);
  }

  /** An IPv4 address has a dot where a group has its end. */
  lemma GroupExcludesIpv4(s: string)
    ensures IsGroup(s) ==> TakeIpv4(s) == None
    ensures TakeGroup(s).Some? ==> TakeIpv4(s) == None
  {
    DigitRunIsDigits(s);
    var n := DigitRun(s);
    assert TakeIpv4(s).Some? ==> 0 < n < |s| && s[n] == '.';
    if TakeGroup(s).Some? {
      var g := TakenGroup(s, TakeGroup(s).value);
      assert s[|g|] == ':';
      assert forall i :: 0 <= i < |g| ==> s[i] == g[i];
    }
  }

  // ----- the alternatives

  lemma ColonsThenIs(e: Expr, n: nat, s: string)
    requires "::" <= s ==> Parse(e, s[2..]) == After(Reading, n, s[2..])
    ensures Parse(Then(Colons, e), s) == if "::" <= s then After(Reading, n, s[2..]) else None
  {
    ThenIs(Colons, e, s);
  }

  lemma OneThenIs(e: Expr, n: nat, s: string)
    requires forall t :: Parse(e, t) == After(Reading, n, t)
    ensures Parse(Then(H16, Then(Colons, e)), s) ==
            match Before(Reading, 1, s) case None => None case Some(t) => After(Reading, n, t)
  {
    ThenIs(H16, Then(Colons, e), s);
    H16Is(s);
    if TakeH16(s).Some? {
      var r := TakeH16(s).value;
      ColonsThenIs(e, n, r);
      if r != "" && r[0] == ':' {
        assert Groups(Reading, 1, 1, s) == Some(r[1..]);
        assert "::" <= r <==> r[1..] != "" && r[1..][0] == ':';
        assert "::" <= r ==> r[1..][1..] == r[2..];
      }
    }
  }

  lemma ManyThenIs(e: Expr, most: nat, n: nat, s: string)
    requires forall t :: Parse(e, t) == After(Reading, n, t)
    ensures Parse(Then(Repeat(1, most, Group), Then(Colon, e)), s) ==
            match Before(Reading, most, s) case None => None case Some(t) => After(Reading, n, t)
  {
    ThenIs(Repeat(1, most, Group), Then(Colon, e), s);
    RepeatIs(1, most, s);
    if Groups(Reading, 1, most, s).Some? {
      var r := Groups(Reading, 1, most, s).value;
      ThenIs(Colon, e, r);
      ColonIs(r);
    }
  }

  lemma FullIs(s: string)
    ensures Parse(Alternatives[0], s) == Alternative(Reading, 0, s)
  {
    AfterIs(6, s);
  }

  lemma ColonsFirstIs(k: nat, s: string)
    requires 1 <= k <= 7
    ensures Parse(Alternatives[k], s) == Alternative(Reading, k, s)
  {
    if "::" <= s {
      AfterIs(4, s[2..]);
      AfterIs(3, s[2..]);
      AfterIs(2, s[2..]);
      AfterThreeIs(s[2..]);
      Ls32Is(s[2..]);
      H16Is(s[2..]);
    }
    if
    case k == 1 => ColonsThenIs(Then(Repeat(4, 4, Group), Ls32), 6, s);
    case k == 2 => ColonsThenIs(Then(Repeat(3, 3, Group), Ls32), 5, s);
    case k == 3 => ColonsThenIs(Then(Repeat(2, 2, Group), Ls32), 4, s);
    case k == 4 => ColonsThenIs(Then(H16, Then(Colon, Ls32)), 3, s);
    case k == 5 => ColonsThenIs(Ls32, 2, s);
    case k == 6 => ColonsThenIs(H16, 1, s);
    case k == 7 =>
  }

  lemma GroupsFirstIs(k: nat, s: string)
    requires 8 <= k <= 12
    ensures Parse(Alternatives[k], s) == Alternative(Reading, k, s)
  {
    if
    case k == 8 =>
      forall t ensures Parse(Then(Repeat(3, 3, Group), Ls32), t) == After(Reading, 5, t) { AfterIs(3, t); }
      OneThenIs(Then(Repeat(3, 3, Group), Ls32), 5, s);
    case k == 9 =>
      forall t ensures Parse(Then(Repeat(2, 2, Group), Ls32), t) == After(Reading, 4, t) { AfterIs(2, t); }
      ManyThenIs(Then(Repeat(2, 2, Group), Ls32), 2, 4, s);
    case k == 10 =>
      forall t ensures Parse(Then(H16, Then(Colon, Ls32)), t) == After(Reading, 3, t) { AfterThreeIs(t); }
      ManyThenIs(Then(H16, Then(Colon, Ls32)), 3, 3, s);
    case k == 11 =>
      forall t ensures Parse(Ls32, t) == After(Reading, 2, t) { Ls32Is(t); }
      ManyThenIs(Ls32, 4, 2, s);
    case k == 12 =>
      forall t ensures Parse(H16, t) == After(Reading, 1, t) { H16Is(t); }
      ManyThenIs(H16, 5, 1, s);
  }

  lemma GroupsOnlyIs(s: string)
    ensures Parse(Alternatives[13], s) == Alternative(Reading, 13, s)
  {
    ThenIs(Repeat(1, 6, Group), Colon, s);
    RepeatIs(1, 6, s);
    if Groups(Reading, 1, 6, s).Some? { ColonIs(Groups(Reading, 1, 6, s).value); }
  }

  lemma AlternativeIs(k: nat, s: string)
    requires k < |Alternatives|
    ensures Parse(Alternatives[k], s) == Alternative(Reading, k, s)
  {
    if k == 0 { FullIs(s); }
    else if k <= 7 { ColonsFirstIs(k, s); }
    else if k <= 12 { GroupsFirstIs(k, s); }
    else { GroupsOnlyIs(s); }
  }

  // ----- the grammar and the counting rule

  lemma ReadingReads()
    ensures Reads(Reading)
  {
    forall s, t | Look(s, t)
      ensures IsGroup(s) ==> TakeGroup(s + (":" + t)) == Some(t)
      ensures TakeGroup(s) == Some(t) ==> TakeLs32(s) == TakeH16(t) && exists g :: IsGroup(g) && Joined(s, g, t)
    {
      if IsGroup(s) { GroupTaken(s, t); }
      if TakeGroup(s) == Some(t) { var g := TakenGroup(s, t); }
    }
    forall s, t | Look(s, t)
      ensures TakeH16(s) == Some("") <==> IsGroup(s)
      ensures IsGroup(s) ==> TakeGroup(s) == None && TakeLs32(s) == None
      ensures IsIpv4(s) ==> TakeGroup(s) == None && TakeLs32(s) == Some("")
      ensures TakeLs32(s) == Some("") && TakeGroup(s) == None ==> IsIpv4(s)
      ensures s == "" || s[0] == ':' ==> TakeGroup(s) == None && TakeH16(s) == None && TakeLs32(s) == None
    {
      WholeGroup(s);
      WholeIpv4(s);
      GroupExcludesIpv4(s);
    }
  }

  /** The `ipv6` rule accepts exactly eight groups, or a double colon and at most six. */
  lemma GrammarCounts(s: string)
    ensures Accepts(Ipv6, s) <==> IsIpv6(s)
  {
    ReadingReads();
    forall i | 0 <= i < |Alternatives| ensures Parse(Alternatives[i], s) == Alternative(Reading, i, s) {
      AlternativeIs(i, s);
    }
    if IsIpv6(s) {
      var i := FirstMatches(Reading, s);
      FirstOfIsFirst(Alternatives, i, s);
    }
    if Accepts(Ipv6, s) {
      var i := FirstOfIsOne(Alternatives, s);
      AnyMatchCounts(Reading, i, s);
    }
  }

  /** The order of the alternatives costs nothing: a match of a part never hides a match of all. */
  lemma NothingHidden(i: nat, s: string)
    requires i < |Alternatives| && Accepts(Alternatives[i], s)
    ensures Accepts(Ipv6, s)
  {
    ReadingReads();
    AlternativeIs(i, s);
    AnyMatchCounts(Reading, i, s);
    GrammarCounts(s);
  }

  /** However many groups stand around its double colon, the number of them decides. */
  lemma CountDecides(s: string, h: string, before: nat, t: string, after: nat)
    requires IsShort(s, h, before, t, after)
    ensures Accepts(Ipv6, s) <==> before + after <= 6
  {
    ReadingReads();
    GrammarCounts(s);
    if IsTail(s, 8) { NoColonsInTail(Reading, s, 8, h, before, t); }
    if Accepts(Ipv6, s) {
      var h', b': nat, t', a': nat :| IsShort(s, h', b', t', a') && b' + a' <= 6;
      ShortUnique(Reading, s, h, before, t, after, h', b', t', a');
    }
  }

  /** The address rule tries IPv4 first; that hides no IPv6 address. */
  lemma AddressRule(s: string)
    ensures Accepts(Or(Ipv4, Ipv6), s) <==> IsIpv4(s) || IsIpv6(s)
  {
    GrammarCounts(s);
    Ipv4Is(s);
    WholeIpv4(s);
    if IsIpv6(s) { Ipv6IsNotIpv4(s); }
    assert Parse(Or(Ipv4, Ipv6), s) == var r := Parse(Ipv4, s); if r.Some? then r else Parse(Ipv6, s);
  }

  lemma Ipv6IsNotIpv4(s: string)
    requires IsIpv6(s)
    ensures TakeIpv4(s) == None
  {
    if IsTail(s, 8) {
      var g, t := TailFirst(s, 8);
      GroupTaken(g, t);
    } else {
      var h, before: nat, t, after: nat :| IsShort(s, h, before, t, after) && before + after <= 6;
      if before > 0 {
        var g, r := HeadFirst(h, before, t);
        GroupTaken(g, r);
      }
    }
    GroupExcludesIpv4(s);
  }
}
