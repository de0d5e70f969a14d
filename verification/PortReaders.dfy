/** The two readers of port texts, the ranges' and the services', compared on every text. */
module PortReaders {
  import opened Common
  import opened PortText
  import opened PortRanges
  import opened ServiceNames
  import opened AclServices

  /** Both ends the form stands for are zero in sixteen bits. */
  predicate ZeroEnds(f: Form)
    requires WellFormed(f)
  {
    match f
    case Interval(open, a, b, close) =>
      && (Value(a) + if open == '(' then 1 else 0) % PORTS == 0
      && (Value(b) - if close == ')' then 1 else 0) % PORTS == 0
    case Pair(a, b) => Value(a) % PORTS == 0 && Value(b) % PORTS == 0
    case Above(_) => false
    case Below(a) => Value(a) % PORTS == 1
    case Single(a) => Value(a) % PORTS == 0
  }

  /** The text is in no form, or in one whose ends are zero. */
  ghost predicate ZeroText(t: string) {
    forall f :: Written(t, f) ==> ZeroEnds(f)
  }

  lemma ZeroMeaning(f: Form)
    requires WellFormed(f)
    ensures Meaning(f) == Ports(0, 0) <==> ZeroEnds(f)
  {
  }

  lemma ZeroParsed(t: string)
    ensures Parsed(t) == Ports(0, 0) <==> ZeroText(t)
  {
    if f :| Written(t, f) {
      ParsedAs(t, f);
      ZeroMeaning(f);
      forall g | Written(t, g) ensures f == g { WrittenOnce(t, f, g); }
    }
  }

  lemma EmptyParsed()
    ensures Parsed("") == Ports(0, 0)
  {
    forall f ensures !Written("", f) {
      if Written("", f) { KindFits("", f); }
    }
  }

  // ----- texts in a plain form

  lemma PlainNoLetters(s: string, f: Form)
    requires Plain(s, f)
    ensures NoLetters(s)
  {
    match f
    case Pair(a, b) =>
      DigitsNoLetters(b, "");
      assert b + "" == b;
      OneNoLetters('-', b);
      DigitsNoLetters(a, ['-'] + b);
    case Above(a) => MarkedNoLetters('>', a);
    case Below(a) => MarkedNoLetters('<', a);
    case Single(a) =>
      DigitsNoLetters(a, "");
      assert a + "" == a;
  }

  lemma MarkedNoLetters(c: char, a: string)
    requires IsNumber(a) && !IsLetter(c)
    ensures NoLetters([c] + a)
  {
    DigitsNoLetters(a, "");
    assert a + "" == a;
    OneNoLetters(c, a);
  }

  lemma PlainAgree(s: string)
    requires IsPlain(s)
    ensures Names(MAPPINGS) && Converted(s) == Parsed(Translated(s, MAPPINGS))
  {
    var f :| Plain(s, f);
    MappingsAreNames();
    PlainNoLetters(s, f);
    NothingTranslated(s, MAPPINGS);
    ConvertedAs(s, f);
    PlainIsWritten(s, f);
    ParsedAs(s, f);
  }

  // ----- names both readers know

  lemma KnownFromBToF(s: string)
    requires s == "bgp" || s == "bootpc" || s == "bootps" || s == "cmd" || s == "domain" || s == "echo"
      || s == "ftp" || s == "http"
    ensures (s, Alias(s)) in B_TO_F
  {
  }

  lemma KnownFromHToR(s: string)
    requires s == "https" || s == "isakmp" || s == "kerberos" || s == "lpd" || s == "ntp" || s == "pop3"
    ensures (s, Alias(s)) in H_TO_R
  {
  }

  lemma KnownFromSToT(s: string)
    requires s == "smtp" || s == "snmptrap" || s == "snmp" || s == "ssh" || s == "syslog" || s == "tacacs"
      || s == "telnet"
    ensures (s, Alias(s)) in S_TO_T
  {
  }

  lemma KnownHyphenated()
    ensures ("ftp-data", Alias("ftp-data")) in HYPHENATED
  {
  }

  lemma Known(s: string)
    requires Alias(s) != s
    ensures (s, Alias(s)) in MAPPINGS
  {
    if s == "ftp-data" {
      KnownHyphenated();
    } else if s == "bgp" || s == "bootpc" || s == "bootps" || s == "cmd" || s == "domain" || s == "echo"
           || s == "ftp" || s == "http" {
      KnownFromBToF(s);
    } else if s == "smtp" || s == "snmptrap" || s == "snmp" || s == "ssh" || s == "syslog" || s == "tacacs"
           || s == "telnet" {
      KnownFromSToT(s);
    } else {
      KnownFromHToR(s);
    }
  }

  lemma AliasDigits(s: string, c: char)
    requires Alias(s) != s && c in Alias(s)
    ensures IsDigit(c)
  {
  }

  lemma AliasLength(s: string)
    requires Alias(s) != s
    ensures 1 <= |Alias(s)| <= 3
  {
  }

  lemma {:induction false} DigitsOnly(a: string)
    requires forall c :: c in a ==> IsDigit(c)
    ensures All(IsDigit, a)
  {
    if a != "" {
      assert a[0] in a;
      DigitsOnly(a[1..]);
    }
  }

  lemma AliasIsNumber(s: string)
    requires Alias(s) != s
    ensures IsNumber(Alias(s))
  {
    AliasLength(s);
    forall c | c in Alias(s) ensures IsDigit(c) { AliasDigits(s, c); }
    DigitsOnly(Alias(s));
  }

  lemma KnownTranslated(s: string)
    requires Alias(s) != s
    ensures Names(MAPPINGS) && Translated(s, MAPPINGS) == Alias(s)
  {
    Known(s);
    var i :| 0 <= i < |MAPPINGS| && MAPPINGS[i] == (s, Alias(s));
    NamesBecomePorts(i);
  }

  lemma NumberAgrees(a: string)
    requires IsNumber(a)
    ensures Converted(a) == Parsed(a)
  {
    var f := Single(a);
    ConvertedAs(a, f);
    ParsedAs(a, f);
  }

  /** A name both readers know is the same port to both. */
  lemma KnownAgree(s: string)
    requires Alias(s) != s
    ensures Names(MAPPINGS) && Converted(Alias(s)) == Parsed(Translated(s, MAPPINGS))
  {
    KnownTranslated(s);
    AliasIsNumber(s);
    NumberAgrees(Alias(s));
  }

  lemma KnownToAlias(s: string)
    requires s in {"ftp-data", "bgp", "bootpc", "bootps", "cmd", "domain", "echo", "ftp", "http"}
    ensures Alias(s) != s
  {
  }

  lemma MoreKnownToAlias(s: string)
    requires s in {"smtp", "snmptrap", "snmp", "ssh", "syslog", "tacacs", "telnet", "https", "isakmp", "kerberos",
                   "lpd", "ntp", "pop3"}
    ensures Alias(s) != s
  {
  }

  /** The names that the services' reader knows. */
  lemma KnownNames(s: string)
    ensures Alias(s) != s <==>
      s in {"ftp-data", "bgp", "bootpc", "bootps", "cmd", "domain", "echo", "ftp", "http"} ||
      s in {"smtp", "snmptrap", "snmp", "ssh", "syslog", "tacacs", "telnet", "https", "isakmp", "kerberos",
            "lpd", "ntp", "pop3"}
  {
    if s in {"ftp-data", "bgp", "bootpc", "bootps", "cmd", "domain", "echo", "ftp", "http"} {
      KnownToAlias(s);
    } else if s in {"smtp", "snmptrap", "snmp", "ssh", "syslog", "tacacs", "telnet", "https", "isakmp", "kerberos",
                    "lpd", "ntp", "pop3"} {
      MoreKnownToAlias(s);
    }
  }

  // ----- every text

  lemma UnknownAgree(s: string)
    requires s != "" && !IsPlain(s)
    ensures Names(MAPPINGS)
    ensures Converted(s) == Parsed(Translated(s, MAPPINGS)) <==> ZeroText(Translated(s, MAPPINGS))
  {
    MappingsAreNames();
    assert Converted(s) == Ports(0, 0);
    ZeroParsed(Translated(s, MAPPINGS));
  }

  lemma EmptyDisagrees()
    ensures Names(MAPPINGS) && Alias("") == "" && !IsPlain("")
    ensures Converted("") != Parsed(Translated("", MAPPINGS))
  {
    MappingsAreNames();
    NothingTranslated("", MAPPINGS);
    EmptyParsed();
    forall f ensures !Plain("", f) {
      if Plain("", f) { PlainIsWritten("", f); }
    }
  }

  /** The two readers agree exactly on the names both know, on the plain forms, and on the other texts
      but the empty one whose translation is in no form or has zero for both ends. */
  lemma ReadersAgree(s: string)
    ensures Names(MAPPINGS)
    ensures Converted(Alias(s)) == Parsed(Translated(s, MAPPINGS)) <==>
      Alias(s) != s || IsPlain(s) || (s != "" && ZeroText(Translated(s, MAPPINGS)))
  {
    if Alias(s) != s {
      KnownAgree(s);
    } else if s == "" {
      EmptyDisagrees();
    } else if IsPlain(s) {
      PlainAgree(s);
    } else {
      UnknownAgree(s);
    }
  }

  // ----- names only one reader knows

  lemma {:induction false} FirstDigitCounts(a: string)
    requires All(IsDigit, a) && a != "" && a[0] != '0'
    ensures Value(a) > 0
    decreases |a|
  {
    if |a| > 1 {
      AllButLast(a);
      FirstDigitCounts(a[..|a| - 1]);
    }
  }

  /** A port of at most four digits is not zero in sixteen bits. */
  lemma ShortIsPort(a: string)
    requires IsNumber(a) && |a| <= 4 && a[0] != '0'
    ensures 0 < Value(a) < 10000
  {
    FirstDigitCounts(a);
    ValueBelow(a);
    assert Pow10(2) == 100;
    assert Pow10(4) == 10000;
    assert |a| == 1 || |a| == 2 || |a| == 3 || |a| == 4;
  }

  lemma ShortNotZero(t: string)
    requires IsNumber(t) && |t| <= 4 && t[0] != '0'
    ensures !ZeroText(t)
  {
    ShortIsPort(t);
    assert Written(t, Single(t)) && !ZeroEnds(Single(t));
  }

  predicate ShortPort(t: string) {
    1 <= |t| <= 4 && t[0] != '0' && forall c :: c in t ==> IsDigit(c)
  }

  lemma HyphenatedShort(i: nat)
    requires 1 <= i < 10
    ensures ShortPort(HYPHENATED[i].1)
  {
  }

  lemma SToTShort(i: nat)
    requires i < 10
    ensures ShortPort(S_TO_T[i].1)
  {
  }

  lemma HToRShort(i: nat)
    requires i < 10
    ensures ShortPort(H_TO_R[i].1)
  {
  }

  lemma BToFShort(i: nat)
    requires i < 10 && i != 5
    ensures ShortPort(B_TO_F[i].1)
  {
  }

  lemma ShortNotZeroEnds(t: string)
    requires ShortPort(t)
    ensures IsNumber(t) && !ZeroText(t)
  {
    DigitsOnly(t);
    ShortNotZero(t);
  }

  lemma PairNotZero(a: string, b: string, t: string)
    requires IsNumber(a) && IsNumber(b) && Value(b) % PORTS != 0 && t == a + (['-'] + b)
    ensures !ZeroText(t)
  {
    var f := Pair(a, b);
    assert Plain(t, f);
    PlainIsWritten(t, f);
    assert !ZeroEnds(f);
  }

  /** A number of five digits that ends in five is not zero in sixteen bits. */
  lemma FiveDigits(b: string, short: string)
    requires IsNumber(b) && |b| == 5 && b[4] == '5' && b[0] != '0' && short == b[..4]
    ensures Value(b) % PORTS != 0
  {
    AllButLast(b);
    ShortIsPort(short);
    assert Value(b) == 10 * Value(short) + 5;
    EndsInFive(Value(short));
  }

  lemma EndsInFive(v: nat)
    requires v < 10000
    ensures (10 * v + 5) % PORTS != 0
  {
    var n := 10 * v + 5;
    assert n != PORTS;
    assert n % PORTS == if n < PORTS then n else n - PORTS;
  }

  lemma LastPort(b: string)
    requires b == "65535"
    ensures IsNumber(b) && Value(b) % PORTS != 0
  {
    DigitsOnly(b);
    FiveDigits(b, b[..4]);
  }

  lemma AnyPorts()
    ensures HYPHENATED[0] == ("any", "0" + (['-'] + "65535"))
    ensures IsNumber("0")
  {
    DigitsOnly("0");
    assert HYPHENATED[0].1 == "0" + (['-'] + "65535");
  }

  lemma AnyNotZero()
    ensures !ZeroText(HYPHENATED[0].1)
  {
    AnyPorts();
    LastPort("65535");
    PairNotZero("0", "65535", HYPHENATED[0].1);
  }

  lemma CapwapPorts()
    ensures B_TO_F[5].1 == "5246" + (['-'] + "5247") && ShortPort("5246") && ShortPort("5247")
  {
  }

  lemma CapwapNotZero()
    ensures !ZeroText(B_TO_F[5].1)
  {
    CapwapPorts();
    ShortPairNotZero("5246", "5247", B_TO_F[5].1);
  }

  lemma ShortPairNotZero(a: string, b: string, t: string)
    requires ShortPort(a) && ShortPort(b) && t == a + (['-'] + b)
    ensures !ZeroText(t)
  {
    DigitsOnly(a);
    DigitsOnly(b);
    ShortIsPort(b);
    PairNotZero(a, b, t);
  }

  lemma HyphenatedNotZero(i: nat)
    requires i < 10
    ensures !ZeroText(HYPHENATED[i].1)
  {
    if i == 0 {
      AnyNotZero();
    } else {
      HyphenatedShort(i);
      ShortNotZeroEnds(HYPHENATED[i].1);
    }
  }

  lemma SToTNotZero(i: nat)
    requires i < 10
    ensures !ZeroText(S_TO_T[i].1)
  {
    SToTShort(i);
    ShortNotZeroEnds(S_TO_T[i].1);
  }

  lemma HToRNotZero(i: nat)
    requires i < 10
    ensures !ZeroText(H_TO_R[i].1)
  {
    HToRShort(i);
    ShortNotZeroEnds(H_TO_R[i].1);
  }

  lemma BToFNotZero(i: nat)
    requires i < 10
    ensures !ZeroText(B_TO_F[i].1)
  {
    if i == 5 {
      CapwapNotZero();
    } else {
      BToFShort(i);
      ShortNotZeroEnds(B_TO_F[i].1);
    }
  }

  ghost predicate NoneZero(table: seq<(string, string)>) {
    forall i :: 0 <= i < |table| ==> !ZeroText(table[i].1)
  }

  lemma FourNoneZero(a: seq<(string, string)>, b: seq<(string, string)>,
                     c: seq<(string, string)>, d: seq<(string, string)>)
    requires NoneZero(a) && NoneZero(b) && NoneZero(c) && NoneZero(d)
    ensures NoneZero(a + b + c + d)
  {
  }

  lemma PartsNoneZero()
    ensures NoneZero(HYPHENATED) && NoneZero(S_TO_T) && NoneZero(H_TO_R) && NoneZero(B_TO_F)
  {
    TenEach();
    forall i: nat | i < 10
      ensures !ZeroText(HYPHENATED[i].1) && !ZeroText(S_TO_T[i].1) && !ZeroText(H_TO_R[i].1) && !ZeroText(B_TO_F[i].1)
    {
      HyphenatedNotZero(i);
      SToTNotZero(i);
      HToRNotZero(i);
      BToFNotZero(i);
    }
  }

  lemma MappingsNotZero()
    ensures NoneZero(MAPPINGS)
  {
    PartsNoneZero();
    FourNoneZero(HYPHENATED, S_TO_T, H_TO_R, B_TO_F);
  }

  lemma NameNotPlain(s: string)
    requires s != "" && IsLetter(s[0])
    ensures !IsPlain(s)
  {
    forall f ensures !Plain(s, f) {
      if Plain(s, f) { PlainNoLetters(s, f); }
    }
  }

  /** Of the names in the ranges' table the readers agree exactly on those the services' reader knows
      too, with the same port; any other name is port zero to it. */
  lemma NamesAgree(table: seq<(string, string)>, i: nat)
    requires table == MAPPINGS && i < |table|
    ensures var (name, port) := table[i];
      && Names(table)
      && (Alias(name) == name || Alias(name) == port)
      && (Converted(Alias(name)) == Parsed(Translated(name, table)) <==> Alias(name) == port)
      && (Alias(name) == name ==> Converted(Alias(name)) == Ports(0, 0))
  {
    var (name, port) := table[i];
    NamesBecomePorts(i);
    ReadersAgree(name);
    NameNotPlain(name);
    if Alias(name) == name {
      MappingsNotZero();
      PortIsNoName(i);
      assert Converted(name) == Ports(0, 0);
    } else {
      KnownTranslated(name);
    }
  }

  lemma PortIsNoName(i: nat)
    requires i < |MAPPINGS|
    ensures MAPPINGS[i].1 != MAPPINGS[i].0
  {
    MappingsAreNames();
    MappingsPorts();
  }
}
