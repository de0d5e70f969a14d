/** Port ranges: read from text, and written as text that reads back. */
module PortRanges {
  import opened Common
  import opened PortText

  const PORTS := 65536

  datatype Ports = Ports(first: nat, last: nat)

  /** A number in sixteen bits. */
  function Cast(n: int): (p: nat)
    ensures p < PORTS
  {
    n % PORTS
  }

  lemma CastStep(n: int, d: int)
    ensures Cast(Cast(n) + d) == Cast(n + d)
  {
    CastCycle(n, d, n / PORTS);
  }

  lemma CastCycle(n: int, d: int, q: int)
    requires n == PORTS * q + n % PORTS
    ensures (n % PORTS + d) % PORTS == (n + d) % PORTS
  {
  }

  // ----- the forms of a range

  datatype Form =
    | Interval(open: char, a: string, b: string, close: char)
    | Pair(a: string, b: string)
    | Above(a: string)
    | Below(a: string)
    | Single(a: string)

  predicate WellFormed(f: Form) {
    && IsNumber(f.a)
    && (f.Interval? ==> IsNumber(f.b) && (f.open == '[' || f.open == '(') && (f.close == ']' || f.close == ')'))
    && (f.Pair? ==> IsNumber(f.b))
  }

  ghost predicate IntervalParts(s: string, f: Form, r1: string, r2: string, r3: string)
    requires f.Interval?
  {
    && s != "" && s[0] == f.open && Field(s[1..], f.a, r1) && Token(r1, ',', r2)
    && Field(r2, f.b, r3) && Token(r3, f.close, "")
  }

  predicate MaybeDash(s: string, rest: string) {
    s == rest || s == ['-'] + rest
  }

  ghost predicate PairParts(s: string, f: Form, r1: string, r2: string, r3: string)
    requires f.Pair?
  {
    IsNumber(f.a) && s == f.a + r1 && Token(r1, '-', r2) && MaybeDash(r2, r3) && Field(r3, f.b, "")
  }

  /** The text is written in the form; intervals and pairs may have spaces. */
  ghost predicate Written(s: string, f: Form) {
    && WellFormed(f)
    && match f
       case Interval(_, _, _, _) => exists r1, r2, r3 :: IntervalParts(s, f, r1, r2, r3)
       case Pair(_, _) => exists r1, r2, r3 :: PairParts(s, f, r1, r2, r3)
       case Above(a) => s == ['>'] + a
       case Below(a) => s == ['<'] + a
       case Single(a) => s == a
  }

  /** The sixteen-bit ends the form stands for. */
  function Meaning(f: Form): Ports
    requires WellFormed(f)
  {
    match f
    case Interval(open, a, b, close) =>
      Ports(Cast(Value(a) + if open == '(' then 1 else 0), Cast(Value(b) - if close == ')' then 1 else 0))
    case Pair(a, b) => Ports(Cast(Value(a)), Cast(Value(b)))
    case Above(a) => Ports(Cast(Value(a) + 1), PORTS - 1)
    case Below(a) => Ports(0, Cast(Value(a) - 1))
    case Single(a) => Ports(Cast(Value(a)), Cast(Value(a)))
  }

  // ----- a text is written in one form at most

  /** The tokens of an interval are what reading it finds. */
  lemma IntervalStart(s: string, f: Form, r1: string, r2: string, r3: string)
    requires f.Interval? && IntervalParts(s, f, r1, r2, r3)
    ensures ReadNumber(Skip(s[1..])) == Some((f.a, r1))
    ensures Skip(r1) == [','] + r2 && ReadNumber(Skip(r2)) == Some((f.b, r3))
    ensures !IsSpace(f.close) ==> Skip(r3) == [f.close]
  {
    FieldRead(s[1..], f.a, r1);
    TokenRead(r1, ',', r2);
    FieldRead(r2, f.b, r3);
    if !IsSpace(f.close) {
      TokenRead(r3, f.close, "");
      assert [f.close] + "" == [f.close];
    }
  }

  lemma SameTail(c: char, a: string, b: string)
    requires [c] + a == [c] + b
    ensures a == b
  {
    assert ([c] + a)[1..] == a && ([c] + b)[1..] == b;
  }

  lemma IntervalOnce(s: string, f: Form, g: Form)
    requires f.Interval? && g.Interval? && Written(s, f) && Written(s, g)
    ensures f == g
  {
    var r1, r2, r3 :| IntervalParts(s, f, r1, r2, r3);
    var t1, t2, t3 :| IntervalParts(s, g, t1, t2, t3);
    IntervalStart(s, f, r1, r2, r3);
    IntervalStart(s, g, t1, t2, t3);
    SameTail(',', r2, t2);
    assert [f.close][0] == [g.close][0];
  }

  /** The number a pair starts with, and the dash after it. */
  lemma PairStart(s: string, f: Form, r1: string, r2: string, r3: string)
    requires f.Pair? && PairParts(s, f, r1, r2, r3)
    ensures ReadNumber(s) == Some((f.a, r1)) && Skip(r1) == ['-'] + r2
    ensures r3 == if r2 != "" && r2[0] == '-' then r2[1..] else r2
    ensures ReadNumber(Skip(r3)) == Some((f.b, ""))
  {
    TokenStarts(r1, '-', r2);
    ReadsNumber(f.a, r1);
    TokenRead(r1, '-', r2);
    FieldStarts(r3, f.b, "");
    FieldRead(r3, f.b, "");
  }

  lemma PairOnce(s: string, f: Form, g: Form)
    requires f.Pair? && g.Pair? && Written(s, f) && Written(s, g)
    ensures f == g
  {
    var r1, r2, r3 :| PairParts(s, f, r1, r2, r3);
    var t1, t2, t3 :| PairParts(s, g, t1, t2, t3);
    PairStart(s, f, r1, r2, r3);
    PairStart(s, g, t1, t2, t3);
    SameTail('-', r2, t2);
  }

  lemma WholeRun(s: string)
    requires All(IsDigit, s)
    ensures Run(IsDigit, s) == |s|
  {
    RunOf(IsDigit, s, "");
    assert s + "" == s;
  }

  datatype Kind = Brackets | Numbers | Number | More | Less | Other

  /** The kind of form a text can only be in. */
  function KindOf(s: string): Kind {
    if s == "" then Other
    else if s[0] == '[' || s[0] == '(' then Brackets
    else if s[0] == '>' then More
    else if s[0] == '<' then Less
    else if IsNumber(s) then Number
    else Numbers
  }

  function FormKind(f: Form): Kind {
    match f
    case Interval(_, _, _, _) => Brackets
    case Pair(_, _) => Numbers
    case Above(_) => More
    case Below(_) => Less
    case Single(_) => Number
  }

  lemma KindFits(s: string, f: Form)
    requires Written(s, f)
    ensures KindOf(s) == FormKind(f)
  {
    if f.Pair? {
      PairIsNumbers(s, f);
    }
  }

  lemma PairIsNumbers(s: string, f: Form)
    requires f.Pair? && Written(s, f)
    ensures s != "" && IsDigit(s[0]) && !IsNumber(s)
  {
    var r1, r2, r3 :| PairParts(s, f, r1, r2, r3);
    PairStart(s, f, r1, r2, r3);
    TokenStarts(r1, '-', r2);
    assert s[0] == f.a[0];
    if IsNumber(s) { WholeRun(s); }
  }

  lemma WrittenOnce(s: string, f: Form, g: Form)
    requires Written(s, f) && Written(s, g)
    ensures f == g
  {
    KindFits(s, f);
    KindFits(s, g);
    match f
    case Interval(_, _, _, _) => IntervalOnce(s, f, g);
    case Pair(_, _) => PairOnce(s, f, g);
    case Above(a) => assert s[1..] == a && s[1..] == g.a;
    case Below(a) => assert s[1..] == a && s[1..] == g.a;
    case Single(_) =>
  }

  /** What a text stands for: its form's ends, or port zero if it is in no form. */
  ghost function Parsed(s: string): Ports {
    if f :| Written(s, f) then Meaning(f) else Ports(0, 0)
  }

  lemma ParsedAs(s: string, f: Form)
    requires Written(s, f)
    ensures Parsed(s) == Meaning(f)
  {
    var g :| Written(s, g) && Parsed(s) == Meaning(g);
    WrittenOnce(s, f, g);
  }

  // ----- the patterns

  /** The text is in no form of the given kind. */
  ghost predicate NoForm(s: string, kind: Kind) {
    forall f: Form :: Written(s, f) ==> FormKind(f) != kind
  }

  method MatchInterval(s: string) returns (m: Option<Form>)
    ensures m.Some? ==> m.value.Interval? && Written(s, m.value)
    ensures m.None? ==> NoForm(s, Brackets)
  {
    if s == "" || (s[0] != '[' && s[0] != '(') { return None; }
    var first := ReadNumber(Skip(s[1..]));
    if first.None? {
      forall f: Form | f.Interval? ensures !Written(s, f) {
        if Written(s, f) {
          var r1, r2, r3 :| IntervalParts(s, f, r1, r2, r3);
          FieldRead(s[1..], f.a, r1);
        }
      }
      return None;
    }
    m := AfterFirst(s, first.value.0, first.value.1);
  }

  /** The rest of an interval after its first number. */
  method AfterFirst(s: string, a: string, r1: string) returns (m: Option<Form>)
    requires s != "" && (s[0] == '[' || s[0] == '(') && ReadNumber(Skip(s[1..])) == Some((a, r1))
    ensures m.Some? ==> m.value.Interval? && Written(s, m.value)
    ensures m.None? ==> NoForm(s, Brackets)
  {
    var rest := Skip(r1);
    if rest == "" || rest[0] != ',' {
      forall f: Form | f.Interval? ensures !Written(s, f) {
        if Written(s, f) { IntervalRead(s, f, a, r1); }
      }
      return None;
    }
    var r2 := rest[1..];
    assert rest == [','] + r2;
    var second := ReadNumber(Skip(r2));
    if second.None? || (Skip(second.value.1) != "]" && Skip(second.value.1) != ")") {
      forall f: Form | f.Interval? ensures !Written(s, f) {
        if Written(s, f) { IntervalRead(s, f, a, r1); }
      }
      return None;
    }
    var (b, r3) := second.value;
    m := Some(Interval(s[0], a, b, Skip(r3)[0]));
    IntervalFound(s, m.value, r1, r2, r3);
  }

  /** What the pattern must find in an interval. */
  lemma IntervalRead(s: string, f: Form, a: string, r1: string)
    requires f.Interval? && Written(s, f) && ReadNumber(Skip(s[1..])) == Some((a, r1))
    ensures Skip(r1) != "" && Skip(r1)[0] == ','
    ensures var second := ReadNumber(Skip(Skip(r1)[1..]));
      second.Some? && Skip(second.value.1) == [f.close]
  {
    var t1, t2, t3 :| IntervalParts(s, f, t1, t2, t3);
    ClosesItself(f);
    IntervalStart(s, f, t1, t2, t3);
    CommaFirst(r1, t2, f.b, t3, f.close);
  }

  lemma ClosesItself(f: Form)
    requires f.Interval? && WellFormed(f)
    ensures !IsSpace(f.close)
  {
  }

  lemma CommaFirst(r1: string, r2: string, b: string, r3: string, close: char)
    requires Skip(r1) == [','] + r2 && ReadNumber(Skip(r2)) == Some((b, r3)) && Skip(r3) == [close]
    ensures Skip(r1) != "" && Skip(r1)[0] == ','
    ensures var second := ReadNumber(Skip(Skip(r1)[1..]));
      second.Some? && Skip(second.value.1) == [close]
  {
    assert ([','] + r2)[1..] == r2;
  }

  lemma IntervalFound(s: string, f: Form, r1: string, r2: string, r3: string)
    requires f.Interval? && s != "" && s[0] == f.open && (f.open == '[' || f.open == '(')
    requires f.close == ']' || f.close == ')'
    requires ReadNumber(Skip(s[1..])) == Some((f.a, r1)) && Skip(r1) == [','] + r2
    requires ReadNumber(Skip(r2)) == Some((f.b, r3)) && Skip(r3) == [f.close]
    ensures Written(s, f)
  {
    FieldRead(s[1..], f.a, r1);
    TokenRead(r1, ',', r2);
    FieldRead(r2, f.b, r3);
    assert [f.close] + "" == [f.close];
    TokenRead(r3, f.close, "");
    assert IntervalParts(s, f, r1, r2, r3);
  }

  method MatchPair(s: string) returns (m: Option<Form>)
    ensures m.Some? ==> m.value.Pair? && Written(s, m.value)
    ensures m.None? ==> NoForm(s, Numbers)
  {
    var first := ReadNumber(s);
    if first.None? || Skip(first.value.1) == "" || Skip(first.value.1)[0] != '-' {
      forall f: Form | f.Pair? ensures !Written(s, f) {
        if Written(s, f) {
          var r1, r2, r3 :| PairParts(s, f, r1, r2, r3);
          PairStart(s, f, r1, r2, r3);
        }
      }
      return None;
    }
    m := AfterDash(s, first.value.0, first.value.1, Skip(first.value.1)[1..]);
  }

  /** The rest of a pair after its first dash. */
  method AfterDash(s: string, a: string, r1: string, r2: string) returns (m: Option<Form>)
    requires ReadNumber(s) == Some((a, r1)) && Skip(r1) == ['-'] + r2
    ensures m.Some? ==> m.value.Pair? && Written(s, m.value)
    ensures m.None? ==> NoForm(s, Numbers)
  {
    var r3 := if r2 != "" && r2[0] == '-' then r2[1..] else r2;
    var second := ReadNumber(Skip(r3));
    if second.None? || second.value.1 != "" {
      forall f: Form | f.Pair? ensures !Written(s, f) {
        if Written(s, f) { PairRead(s, f, a, r1, r2); }
      }
      return None;
    }
    m := Some(Pair(a, second.value.0));
    PairFound(s, m.value, r1, r2, r3);
  }

  lemma PairRead(s: string, f: Form, a: string, r1: string, r2: string)
    requires f.Pair? && Written(s, f) && ReadNumber(s) == Some((a, r1)) && Skip(r1) == ['-'] + r2
    ensures ReadNumber(Skip(if r2 != "" && r2[0] == '-' then r2[1..] else r2)) == Some((f.b, ""))
  {
    var t1, t2, t3 :| PairParts(s, f, t1, t2, t3);
    PairStart(s, f, t1, t2, t3);
    SameTail('-', r2, t2);
  }

  lemma PairFound(s: string, f: Form, r1: string, r2: string, r3: string)
    requires f.Pair? && ReadNumber(s) == Some((f.a, r1)) && Skip(r1) == ['-'] + r2
    requires r3 == if r2 != "" && r2[0] == '-' then r2[1..] else r2
    requires ReadNumber(Skip(r3)) == Some((f.b, ""))
    ensures Written(s, f)
  {
    NumberRead(s);
    TokenRead(r1, '-', r2);
    FieldRead(r3, f.b, "");
    assert MaybeDash(r2, r3);
    assert PairParts(s, f, r1, r2, r3);
  }

  method MatchAbove(s: string) returns (m: Option<Form>)
    ensures m.Some? ==> m.value.Above? && Written(s, m.value)
    ensures m.None? ==> NoForm(s, More)
  {
    if s != "" && s[0] == '>' && IsNumber(s[1..]) {
      assert s == ['>'] + s[1..];
      return Some(Above(s[1..]));
    }
    assert forall a: string :: s == ['>'] + a ==> s[1..] == a;
    m := None;
  }

  method MatchBelow(s: string) returns (m: Option<Form>)
    ensures m.Some? ==> m.value.Below? && Written(s, m.value)
    ensures m.None? ==> NoForm(s, Less)
  {
    if s != "" && s[0] == '<' && IsNumber(s[1..]) {
      assert s == ['<'] + s[1..];
      return Some(Below(s[1..]));
    }
    assert forall a: string :: s == ['<'] + a ==> s[1..] == a;
    m := None;
  }

  method MatchSingle(s: string) returns (m: Option<Form>)
    ensures m.Some? ==> m.value.Single? && Written(s, m.value)
    ensures m.None? ==> NoForm(s, Number)
  {
    m := if IsNumber(s) then Some(Single(s)) else None;
  }

  // ----- names of services

  const HYPHENATED: seq<(string, string)> := [
    ("any", "0-65535"), ("ptp-general", "320"), ("ptp-event", "319"), ("netbios-ns", "137"),
    ("multihop-bfd", "4784"), ("micro-bfd", "6784"), ("ftp-data", "20"), ("dhcpv6-server", "547"),
    ("dhcpv6-client", "546"), ("bfd-echo", "3785")]
  const S_TO_T: seq<(string, string)> := [
    ("telnet", "23"), ("tacacs", "49"), ("syslog", "514"), ("ssh", "22"), ("snmptrap", "162"),
    ("snmp", "161"), ("smtp", "25"), ("sbfd", "7784"), ("rtsp", "554"), ("rip", "520")]
  const H_TO_R: seq<(string, string)> := [
    ("pop3", "110"), ("ntp", "123"), ("mlag", "4432"), ("lpd", "515"), ("ldp", "646"), ("ldaps", "636"),
    ("ldap", "389"), ("kerberos", "88"), ("isakmp", "500"), ("https", "443")]
  const B_TO_F: seq<(string, string)> := [
    ("http", "80"), ("ftp", "21"), ("echo", "7"), ("domain", "53"), ("cmd", "514"), ("capwap", "5246-5247"),
    ("bootps", "67"), ("bootpc", "68"), ("bgp", "179"), ("bfd", "3784")]

  const MAPPINGS := HYPHENATED + S_TO_T + H_TO_R + B_TO_F

  predicate StartsWith(s: string, find: string) {
    |find| <= |s| && s[..|find|] == find
  }

  /** Every occurrence replaced, from the left. */
  function ReplaceAll(s: string, find: string, put: string): string
    requires find != ""
    decreases |s|
  {
    if s == "" then ""
    else if StartsWith(s, find) then put + ReplaceAll(s[|find|..], find, put)
    else [s[0]] + ReplaceAll(s[1..], find, put)
  }

  predicate IsLetter(c: char) {
    'a' <= c <= 'z'
  }

  predicate NoLetters(s: string) {
    s == "" || (!IsLetter(s[0]) && NoLetters(s[1..]))
  }

  /** Every name starts with a letter. */
  predicate Names(table: seq<(string, string)>) {
    forall i :: 0 <= i < |table| ==> table[i].0 != "" && IsLetter(table[i].0[0])
  }

  lemma MappingsAreNames()
    ensures Names(MAPPINGS)
  {
    assert Names(HYPHENATED);
    assert Names(S_TO_T);
    assert Names(H_TO_R);
    assert Names(B_TO_F);
    NamesConcat(HYPHENATED, S_TO_T);
    NamesConcat(HYPHENATED + S_TO_T, H_TO_R);
    NamesConcat(HYPHENATED + S_TO_T + H_TO_R, B_TO_F);
  }

  lemma NamesConcat(a: seq<(string, string)>, b: seq<(string, string)>)
    requires Names(a) && Names(b)
    ensures Names(a + b)
  {
  }

  function Translated(s: string, table: seq<(string, string)>): string
    requires Names(table)
    decreases |table|
  {
    if table == [] then s else Translated(ReplaceAll(s, table[0].0, table[0].1), table[1..])
  }

  lemma SameStart(s: string, find: string)
    requires find != "" && StartsWith(s, find)
    ensures s[0] == find[0]
  {
    assert s[..|find|][0] == s[0];
  }

  lemma {:induction false} NothingReplaced(s: string, find: string, put: string)
    requires NoLetters(s) && find != "" && IsLetter(find[0])
    ensures ReplaceAll(s, find, put) == s
    decreases |s|
  {
    if s != "" {
      NothingReplaced(s[1..], find, put);
      if StartsWith(s, find) {
        SameStart(s, find);
        assert false;
      }
      assert s == [s[0]] + s[1..];
    }
  }

  /** Texts without letters are left alone. */
  lemma {:induction false} NothingTranslated(s: string, table: seq<(string, string)>)
    requires NoLetters(s) && Names(table)
    ensures Translated(s, table) == s
    decreases |table|
  {
    if table != [] {
      NothingReplaced(s, table[0].0, table[0].1);
      NothingTranslated(s, table[1..]);
    }
  }

  predicate Occurs(s: string, find: string) {
    s != "" && (StartsWith(s, find) || Occurs(s[1..], find))
  }

  lemma {:induction false} AbsentNotReplaced(s: string, find: string, put: string)
    requires find != "" && !Occurs(s, find)
    ensures ReplaceAll(s, find, put) == s
    decreases |s|
  {
    if s != "" {
      AbsentNotReplaced(s[1..], find, put);
      assert s == [s[0]] + s[1..];
    }
  }

  /** The first occurrence is replaced, and then those in the rest. */
  lemma {:induction false} FirstReplaced(x: string, find: string, put: string, rest: string)
    requires find != "" && forall k :: 0 <= k < |x| ==> !StartsWith((x + (find + rest))[k..], find)
    ensures ReplaceAll(x + (find + rest), find, put) == x + (put + ReplaceAll(rest, find, put))
    decreases |x|
  {
    var s := x + (find + rest);
    if x == "" {
      assert s == find + rest && s[..|find|] == find && s[|find|..] == rest;
    } else {
      var t := x[1..] + (find + rest);
      assert s[1..] == t && s[0..] == s;
      forall k | 0 <= k < |x[1..]| ensures !StartsWith(t[k..], find) {
        assert t[k..] == s[k + 1..];
      }
      FirstReplaced(x[1..], find, put, rest);
      assert x == [x[0]] + x[1..];
    }
  }

  /** A name ends up as its own port if no earlier name of the table occurs in it. */
  lemma {:induction false} NameBecomesPort(table: seq<(string, string)>, i: nat)
    requires Names(table) && i < |table| && NoLetters(table[i].1)
    requires forall j :: 0 <= j < i ==> !Occurs(table[i].0, table[j].0)
    ensures Translated(table[i].0, table) == table[i].1
    decreases i
  {
    var (name, port) := table[i];
    if i == 0 {
      assert name[|name|..] == "" && port + "" == port;
      assert ReplaceAll(name, name, port) == port + ReplaceAll("", name, port);
      NothingTranslated(port, table[1..]);
    } else {
      AbsentNotReplaced(name, table[0].0, table[0].1);
      assert table[1..][i - 1] == table[i];
      NameBecomesPort(table[1..], i - 1);
    }
  }

  method Translate(data: string, mappings: seq<(string, string)>) returns (s: string)
    requires Names(mappings)
    ensures s == Translated(data, mappings)
  {
    s := data;
    for i := 0 to |mappings|
      invariant Translated(s, mappings[i..]) == Translated(data, mappings)
    {
      var (service, port) := mappings[i];
      assert mappings[i..][0] == mappings[i] && mappings[i..][1..] == mappings[i + 1..];
      s := ReplaceAll(s, service, port);
    }
  }

  /** A sixteen-bit number counted up or down after it has been stored. */
  method Moved(n: nat, step: int) returns (p: nat)
    ensures p == Cast(n + step)
  {
    p := Cast(n);
    CastStep(n, step);
    p := Cast(p as int + step);
  }

  /** The ends of an interval, moved when it excludes them. */
  method IntervalEnds(f: Form) returns (p: Ports)
    requires f.Interval? && WellFormed(f)
    ensures p == Meaning(f)
  {
    var first := Moved(Value(f.a), if f.open == '(' then 1 else 0);
    var last := Moved(Value(f.b), if f.close == ')' then -1 else 0);
    p := Ports(first, last);
  }

  method ReadInterval(s: string) returns (ends: Option<Ports>)
    ensures ends.Some? ==> ends.value == Parsed(s)
    ensures ends.None? ==> NoForm(s, Brackets)
  {
    var m := MatchInterval(s);
    if m.None? { return None; }
    ParsedAs(s, m.value);
    var p := IntervalEnds(m.value);
    ends := Some(p);
  }

  method ReadPair(s: string) returns (ends: Option<Ports>)
    ensures ends.Some? ==> ends.value == Parsed(s)
    ensures ends.None? ==> NoForm(s, Numbers)
  {
    var m := MatchPair(s);
    if m.None? { return None; }
    ParsedAs(s, m.value);
    var first, last := Cast(Value(m.value.a)), Cast(Value(m.value.b));
    ends := Some(Ports(first, last));
  }

  method ReadAbove(s: string) returns (ends: Option<Ports>)
    ensures ends.Some? ==> ends.value == Parsed(s)
    ensures ends.None? ==> NoForm(s, More)
  {
    var m := MatchAbove(s);
    if m.None? { return None; }
    ParsedAs(s, m.value);
    var last := PORTS - 1;
    var first := Moved(Value(m.value.a), 1);
    ends := Some(Ports(first, last));
  }

  method ReadBelow(s: string) returns (ends: Option<Ports>)
    ensures ends.Some? ==> ends.value == Parsed(s)
    ensures ends.None? ==> NoForm(s, Less)
  {
    var m := MatchBelow(s);
    if m.None? { return None; }
    ParsedAs(s, m.value);
    var first := 0;
    var last := Moved(Value(m.value.a), -1);
    ends := Some(Ports(first, last));
  }

  method ReadSingle(s: string) returns (ends: Option<Ports>)
    ensures ends.Some? ==> ends.value == Parsed(s)
    ensures ends.None? ==> NoForm(s, Number)
  {
    var m := MatchSingle(s);
    if m.None? { return None; }
    ParsedAs(s, m.value);
    var first, last := Cast(Value(m.value.a)), Cast(Value(m.value.a));
    ends := Some(Ports(first, last));
  }

  lemma NothingParsed(s: string)
    requires NoForm(s, Brackets) && NoForm(s, Numbers) && NoForm(s, More) && NoForm(s, Less) && NoForm(s, Number)
    ensures Parsed(s) == Ports(0, 0)
  {
    forall f: Form ensures !Written(s, f) {
      var kind := FormKind(f);
      assert kind == Brackets || kind == Numbers || kind == More || kind == Less || kind == Number;
    }
  }

  /** The five patterns, one after the other; the ends of an interval that excludes them are moved. */
  method Read(s: string) returns (ends: Ports)
    ensures ends == Parsed(s)
  {
    var r := ReadInterval(s);
    if r.Some? { return r.value; }
    r := ReadPair(s);
    if r.Some? { return r.value; }
    r := ReadAbove(s);
    if r.Some? { return r.value; }
    r := ReadBelow(s);
    if r.Some? { return r.value; }
    r := ReadSingle(s);
    if r.Some? { return r.value; }
    NothingParsed(s);
    ends := Ports(0, 0);
  }

  class PortRange {
    var first: nat
    var last: nat

    function Ends(): Ports
      reads this
    {
      Ports(first, last)
    }

    constructor Between(first: nat, last: nat)
      requires first < PORTS && last < PORTS
      ensures Ends() == Ports(first, last)
    {
      this.first, this.last := first, last;
    }

    constructor FromString(portRangeString: string)
      ensures Names(MAPPINGS) && Ends() == Parsed(Translated(portRangeString, MAPPINGS))
    {
      first, last := 0, 0;
      new;
      MappingsAreNames();
      var s := Translate(portRangeString, MAPPINGS);
      var ends := Read(s);
      first, last := ends.first, ends.last;
    }
  }

  // ----- writing and reading back

  function ToString(p: Ports): string {
    "[" + Decimal(p.first) + "," + Decimal(p.last) + "]"
  }

  function ToHumanString(p: Ports): string {
    if p.first == p.last then Decimal(p.first) else Decimal(p.first) + "-" + Decimal(p.last)
  }

  lemma {:induction false} DigitsNoLetters(a: string, rest: string)
    requires All(IsDigit, a) && NoLetters(rest)
    ensures NoLetters(a + rest)
    decreases |a|
  {
    if a == "" {
      assert a + rest == rest;
    } else {
      DigitsNoLetters(a[1..], rest);
      assert (a + rest)[1..] == a[1..] + rest;
    }
  }

  lemma OneNoLetters(c: char, rest: string)
    requires !IsLetter(c) && NoLetters(rest)
    ensures NoLetters([c] + rest)
  {
    assert ([c] + rest)[1..] == rest;
  }

  /** An interval or a pair without spaces. */
  lemma TightInterval(f: Form)
    requires f.Interval? && WellFormed(f)
    ensures var s := [f.open] + (f.a + ([','] + (f.b + ([f.close] + ""))));
      Written(s, f) && NoLetters(s)
  {
    var r3 := [f.close] + "";
    var r2 := f.b + r3;
    var r1 := [','] + r2;
    var s := [f.open] + (f.a + r1);
    TightField(f.a, r1);
    TightToken(',', r2);
    TightField(f.b, r3);
    TightToken(f.close, "");
    assert s[1..] == f.a + r1;
    assert IntervalParts(s, f, r1, r2, r3);
    OneNoLetters(f.close, "");
    DigitsNoLetters(f.b, r3);
    OneNoLetters(',', r2);
    DigitsNoLetters(f.a, r1);
    OneNoLetters(f.open, f.a + r1);
  }

  lemma TightPair(f: Form)
    requires f.Pair? && WellFormed(f)
    ensures var s := f.a + (['-'] + (f.b + ""));
      Written(s, f) && NoLetters(s)
  {
    var r2 := f.b + "";
    var r1 := ['-'] + r2;
    TightToken('-', r2);
    TightField(f.b, "");
    assert PairParts(f.a + r1, f, r1, r2, r2);
    DigitsNoLetters(f.b, "");
    OneNoLetters('-', r2);
    DigitsNoLetters(f.a, r1);
  }

  lemma TightField(a: string, rest: string)
    requires IsNumber(a) && !Starts(IsDigit, rest)
    ensures Field(a + rest, a, rest)
  {
    assert a + rest == "" + (a + rest);
  }

  lemma TightToken(c: char, rest: string)
    ensures Token([c] + rest, c, rest)
  {
    assert [c] + rest == "" + ([c] + rest);
  }

  /** One notation is an interval with both its ends, the other a pair, or one number for one port. */
  lemma PrintedForms(p: Ports)
    requires p.first < PORTS && p.last < PORTS
    ensures Written(ToString(p), Interval('[', Decimal(p.first), Decimal(p.last), ']'))
    ensures Written(ToHumanString(p),
                    if p.first == p.last then Single(Decimal(p.first)) else Pair(Decimal(p.first), Decimal(p.last)))
  {
    NumbersBack(p);
    IntervalForm(Decimal(p.first), Decimal(p.last));
    PairForm(Decimal(p.first), Decimal(p.last));
  }

  lemma IntervalForm(a: string, b: string)
    requires IsNumber(a) && IsNumber(b)
    ensures Written("[" + a + "," + b + "]", Interval('[', a, b, ']'))
  {
    TightInterval(Interval('[', a, b, ']'));
    Bracketed(a, b);
  }

  lemma PairForm(a: string, b: string)
    requires IsNumber(a) && IsNumber(b)
    ensures Written(a + "-" + b, Pair(a, b))
  {
    TightPair(Pair(a, b));
    assert a + "-" + b == a + (['-'] + (b + ""));
  }

  /** What is printed of a range reads back as the range, in both notations. */
  lemma RoundTrip(p: Ports)
    requires p.first < PORTS && p.last < PORTS
    ensures Names(MAPPINGS)
    ensures Parsed(Translated(ToString(p), MAPPINGS)) == p
    ensures Parsed(Translated(ToHumanString(p), MAPPINGS)) == p
  {
    MappingsAreNames();
    IntervalBack(p, MAPPINGS);
    HumanBack(p, MAPPINGS);
  }

  lemma NumbersBack(p: Ports)
    requires p.first < PORTS && p.last < PORTS
    ensures IsNumber(Decimal(p.first)) && IsNumber(Decimal(p.last))
    ensures Value(Decimal(p.first)) == p.first && Value(Decimal(p.last)) == p.last
  {
    DecimalValue(p.first);
    DecimalValue(p.last);
    DecimalLength(p.first);
    DecimalLength(p.last);
  }

  lemma MeaningOfBounds(f: Form, p: Ports)
    requires WellFormed(f) && p.first < PORTS && p.last < PORTS && Value(f.a) == p.first
    requires (f.Interval? && f.open == '[' && f.close == ']') || f.Pair?
    requires Value(f.b) == p.last
    ensures Meaning(f) == p
  {
  }

  lemma IntervalBack(p: Ports, table: seq<(string, string)>)
    requires p.first < PORTS && p.last < PORTS && Names(table)
    ensures Parsed(Translated(ToString(p), table)) == p
  {
    NumbersBack(p);
    var f := Interval('[', Decimal(p.first), Decimal(p.last), ']');
    TightInterval(f);
    Bracketed(f.a, f.b);
    NothingTranslated(ToString(p), table);
    ParsedAs(ToString(p), f);
    MeaningOfBounds(f, p);
  }

  lemma Bracketed(a: string, b: string)
    ensures "[" + a + "," + b + "]" == ['['] + (a + ([','] + (b + ([']'] + ""))))
  {
  }

  lemma HumanBack(p: Ports, table: seq<(string, string)>)
    requires p.first < PORTS && p.last < PORTS && Names(table)
    ensures Parsed(Translated(ToHumanString(p), table)) == p
  {
    if p.first == p.last { OnePortBack(p, table); } else { TwoPortsBack(p, table); }
  }

  lemma OnePortBack(p: Ports, table: seq<(string, string)>)
    requires p.first == p.last < PORTS && Names(table)
    ensures Parsed(Translated(Decimal(p.first), table)) == p
  {
    NumbersBack(p);
    PortBack(p, Decimal(p.first), table);
  }

  lemma PortBack(p: Ports, a: string, table: seq<(string, string)>)
    requires IsNumber(a) && Value(a) == p.first == p.last < PORTS && Names(table)
    ensures Parsed(Translated(a, table)) == p
  {
    SingleBack(a, table);
    MeaningOfOne(a, p);
  }

  lemma MeaningOfOne(a: string, p: Ports)
    requires IsNumber(a) && Value(a) == p.first == p.last < PORTS
    ensures Meaning(Single(a)) == p
  {
  }

  lemma TwoPortsBack(p: Ports, table: seq<(string, string)>)
    requires p.first < PORTS && p.last < PORTS && Names(table)
    ensures Parsed(Translated(Decimal(p.first) + "-" + Decimal(p.last), table)) == p
  {
    NumbersBack(p);
    var f := Pair(Decimal(p.first), Decimal(p.last));
    PairBack(f, table);
    MeaningOfBounds(f, p);
  }

  lemma SingleBack(a: string, table: seq<(string, string)>)
    requires IsNumber(a) && Names(table)
    ensures Parsed(Translated(a, table)) == Meaning(Single(a))
  {
    DigitsNoLetters(a, "");
    assert a + "" == a;
    NothingTranslated(a, table);
    ParsedAs(a, Single(a));
  }

  lemma PairBack(f: Form, table: seq<(string, string)>)
    requires f.Pair? && WellFormed(f) && Names(table)
    ensures Parsed(Translated(f.a + "-" + f.b, table)) == Meaning(f)
  {
    TightPair(f);
    assert f.a + "-" + f.b == f.a + (['-'] + (f.b + ""));
    NothingTranslated(f.a + "-" + f.b, table);
    ParsedAs(f.a + "-" + f.b, f);
  }
}
