/** Port texts and service texts turned into protocol and port rows. */
module AclServices {
  import opened Common
  import opened PortText
  import opened PortRanges

  // ----- port texts

  /** The port of a service's name. */
  function Alias(s: string): string {
    if s == "bgp" then "179" else if s == "bootpc" then "68" else if s == "bootps" then "67"
    else if s == "cmd" then "514" else if s == "domain" then "53" else if s == "echo" then "7"
    else if s == "ftp-data" then "20" else if s == "ftp" then "21" else if s == "https" then "443"
    else if s == "http" then "80" else if s == "isakmp" then "500" else if s == "kerberos" then "88"
    else if s == "lpd" then "515" else if s == "ntp" then "123" else if s == "pop3" then "110"
    else if s == "smtp" then "25" else if s == "snmptrap" then "162" else if s == "snmp" then "161"
    else if s == "ssh" then "22" else if s == "syslog" then "514" else if s == "tacacs" then "49"
    else if s == "telnet" then "23" else s
  }

  /** The forms without brackets and spaces. */
  predicate Plain(s: string, f: Form) {
    && WellFormed(f)
    && match f
       case Interval(_, _, _, _) => false
       case Pair(a, b) => s == a + (['-'] + b)
       case Above(a) => s == ['>'] + a
       case Below(a) => s == ['<'] + a
       case Single(a) => s == a
  }

  lemma PlainIsWritten(s: string, f: Form)
    requires Plain(s, f)
    ensures Written(s, f) && s != ""
  {
    if f.Pair? {
      TightPair(f);
      assert f.b + "" == f.b;
    }
  }

  ghost predicate IsPlain(s: string) {
    exists f :: Plain(s, f)
  }

  /** No text is any port, and a text in no plain form port zero. */
  ghost function Converted(s: string): Ports {
    if s == "" then Ports(0, PORTS - 1)
    else if f :| Plain(s, f) then Meaning(f)
    else Ports(0, 0)
  }

  lemma ConvertedAs(s: string, f: Form)
    requires Plain(s, f)
    ensures s != "" && Converted(s) == Meaning(f)
  {
    PlainIsWritten(s, f);
    var g :| Plain(s, g) && Converted(s) == Meaning(g);
    PlainIsWritten(s, g);
    WrittenOnce(s, f, g);
  }

  lemma PlainPairRead(s: string, f: Form)
    requires f.Pair? && Plain(s, f)
    ensures ReadNumber(s) == Some((f.a, ['-'] + f.b)) && (['-'] + f.b)[1..] == f.b && IsNumber(f.b)
  {
    ReadsNumber(f.a, ['-'] + f.b);
  }

  method MatchPlainPair(s: string) returns (m: Option<Form>)
    ensures m.Some? ==> m.value.Pair? && Plain(s, m.value)
    ensures m.None? ==> forall f: Form :: f.Pair? ==> !Plain(s, f)
  {
    var first := ReadNumber(s);
    if first.Some? && first.value.1 != "" && first.value.1[0] == '-' && IsNumber(first.value.1[1..]) {
      NumberRead(s);
      assert first.value.1 == ['-'] + first.value.1[1..];
      return Some(Pair(first.value.0, first.value.1[1..]));
    }
    forall f: Form | f.Pair? ensures !Plain(s, f) {
      if Plain(s, f) { PlainPairRead(s, f); }
    }
    m := None;
  }

  lemma NothingPlain(s: string)
    requires s != "" && NoForm(s, More) && NoForm(s, Less) && NoForm(s, Number)
    requires forall f: Form :: f.Pair? ==> !Plain(s, f)
    ensures Converted(s) == Ports(0, 0)
  {
    forall f ensures !Plain(s, f) {
      if Plain(s, f) { PlainIsWritten(s, f); }
    }
  }

  /** No text is all ports. */
  lemma EmptyIsAll()
    ensures Converted(Alias("")) == Ports(0, 65535)
  {
  }

  method ConvertToPortRange(data: string) returns (p: Ports)
    ensures p == Converted(Alias(data))
  {
    var s := Alias(data);
    var m := MatchAbove(s);
    if m.Some? {
      ConvertedAs(s, m.value);
      return Ports(Cast(Value(m.value.a) + 1), PORTS - 1);
    }
    var below := MatchBelow(s);
    if below.Some? {
      ConvertedAs(s, below.value);
      return Ports(0, Cast(Value(below.value.a) - 1));
    }
    var pair := MatchPlainPair(s);
    if pair.Some? {
      ConvertedAs(s, pair.value);
      return Ports(Cast(Value(pair.value.a)), Cast(Value(pair.value.b)));
    }
    var single := MatchSingle(s);
    if single.Some? {
      ConvertedAs(s, single.value);
      return Ports(Cast(Value(single.value.a)), Cast(Value(single.value.a)));
    }
    if s == "" { return Ports(0, PORTS - 1); }
    NothingPlain(s);
    p := Ports(0, 0);
  }
}
