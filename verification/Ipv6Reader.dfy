/** How the alternatives of the address grammar divide a string, for any way of reading its groups
    that satisfies `Reads`. */
module Ipv6Reader {
  import opened Common
  import opened Peg
  import opened Ipv6Grammar

  type Taker = string -> Option<string>

  /** What is left after a group and its colon, after a last group, after the last two groups. */
  datatype Reader = Reader(group: Taker, one: Taker, two: Taker)

  /** Named only to say which strings a fact about a reader is to be used for. */
  ghost predicate Look(s: string, t: string) { true }

  ghost predicate Reads(k: Reader) {
    forall s, t {:trigger Look(s, t)} :: Look(s, t) ==>
      && (IsGroup(s) ==> k.group(s + (":" + t)) == Some(t))
      && (k.group(s) == Some(t) ==> k.two(s) == k.one(t) && exists g :: IsGroup(g) && Joined(s, g, t))
      && (k.one(s) == Some("") <==> IsGroup(s))
      && (IsGroup(s) ==> k.group(s) == None && k.two(s) == None)
      && (IsIpv4(s) ==> k.group(s) == None && k.two(s) == Some(""))
      && (k.two(s) == Some("") && k.group(s) == None ==> IsIpv4(s))
      && (s == "" || s[0] == ':' ==> k.group(s) == None && k.one(s) == None && k.two(s) == None)
  }

  lemma GroupRead(k: Reader, g: string, t: string)
    requires Reads(k) && IsGroup(g)
    ensures k.group(g + (":" + t)) == Some(t) && k.two(g + (":" + t)) == k.one(t)
  {
    assert Look(g, t);
    assert Look(g + (":" + t), t);
  }

  lemma LastRead(k: Reader, s: string)
    requires Reads(k)
    ensures k.one(s) == Some("") <==> IsGroup(s)
    ensures IsGroup(s) ==> k.group(s) == None && k.two(s) == None
    ensures IsIpv4(s) ==> k.group(s) == None && k.two(s) == Some("")
    ensures k.two(s) == Some("") && k.group(s) == None ==> IsIpv4(s)
    ensures s == "" || s[0] == ':' ==> k.group(s) == None && k.one(s) == None && k.two(s) == None
  {
    assert Look(s, s);
  }

  function TakeColon(s: string): Option<string> {
    if s != "" && s[0] == ':' then Some(s[1..]) else None
  }

  /** `n` groups as the alternatives read them: all but the last two one by one. */
  function After(k: Reader, n: nat, s: string): Option<string> {
    if n == 0 then Some(s)
    else if n == 1 then k.one(s)
    else if n == 2 then k.two(s)
    else
      match k.group(s)
      case None => None
      case Some(rest) => After(k, n - 1, rest)
  }

  /** At least `lo` groups, and more of them as long as there are, up to `most`. */
  function Groups(k: Reader, lo: nat, most: nat, s: string): Option<string> {
    if most == 0 then Some(s)
    else
      match k.group(s)
      case None => if lo == 0 then Some(s) else None
      case Some(rest) => Groups(k, if lo == 0 then 0 else lo - 1, most - 1, rest)
  }

  /** The part before a double colon and the double colon. */
  function Before(k: Reader, most: nat, s: string): Option<string> {
    match Groups(k, 1, most, s)
    case None => None
    case Some(rest) => TakeColon(rest)
  }

  /** What the `i`-th alternative leaves of a string. */
  function Alternative(k: Reader, i: nat, s: string): Option<string> {
    if i == 0 then After(k, 8, s)
    else if i <= 7 then (if "::" <= s then After(k, 7 - i, s[2..]) else None)
    else if i <= 13 then
      (match Before(k, i - 7, s)
       case None => None
       case Some(t) => After(k, 13 - i, t))
    else None
  }

  // ----- the part after a double colon, and the whole of a full address

  lemma AfterStep(k: Reader, g: string, t: string, m: nat)
    requires Reads(k) && m >= 2 && IsGroup(g)
    ensures After(k, m, g + (":" + t)) == After(k, m - 1, t)
  {
    GroupRead(k, g, t);
  }

  lemma AfterEnd(k: Reader, s: string, n: nat, m: nat)
    requires Reads(k) && m >= n && ((n == 1 && IsGroup(s)) || (n == 2 && IsIpv4(s)))
    ensures After(k, m, s) == if m == n then Some("") else None
  {
    LastRead(k, s);
  }

  lemma TailFirst(s: string, n: nat) returns (g: string, t: string)
    requires n >= 1 && IsTail(s, n) && !(n == 1 && IsGroup(s)) && !(n == 2 && IsIpv4(s))
    ensures s == g + (":" + t) && IsGroup(g) && n > 1 && IsTail(t, n - 1)
  {
    g, t :| Joined(s, g, t) && IsGroup(g) && IsTail(t, n - 1);
  }

  lemma TailMore(g: string, t: string, n: nat)
    requires n >= 1 && IsGroup(g) && IsTail(t, n)
    ensures IsTail(g + (":" + t), n + 1)
  {
    assert Joined(g + (":" + t), g, t);
  }

  lemma {:induction false} AfterFits(k: Reader, n: nat, s: string, m: nat)
    requires Reads(k) && n >= 1 && m >= n && IsTail(s, n)
    ensures After(k, m, s) == if m == n then Some("") else None
    decreases n
  {
    if (n == 1 && IsGroup(s)) || (n == 2 && IsIpv4(s)) {
      AfterEnd(k, s, n, m);
    } else {
      var g, t := TailFirst(s, n);
      AfterFits(k, n - 1, t, m - 1);
      AfterStep(k, g, t, m);
    }
  }

  lemma GroupWas(k: Reader, s: string, t: string) returns (g: string)
    requires Reads(k) && k.group(s) == Some(t)
    ensures IsGroup(g) && s == g + (":" + t)
  {
    assert Look(s, t);
    g :| IsGroup(g) && Joined(s, g, t);
  }

  lemma {:induction false} AfterWas(k: Reader, n: nat, s: string)
    requires Reads(k) && n >= 1 && After(k, n, s) == Some("")
    ensures IsTail(s, n)
    decreases n
  {
    LastRead(k, s);
    if n > 1 && k.group(s).Some? {
      var t := k.group(s).value;
      var g := GroupWas(k, s, t);
      AfterStep(k, g, t, n);
      AfterWas(k, n - 1, t);
      TailMore(g, t, n - 1);
    }
  }

  // ----- the part before a double colon

  lemma GroupsStep(k: Reader, g: string, t: string, lo: nat, most: nat)
    requires Reads(k) && lo <= 1 && most > 0 && IsGroup(g)
    ensures Groups(k, lo, most, g + (":" + t)) == Groups(k, 0, most - 1, t)
  {
    GroupRead(k, g, t);
  }

  lemma GroupsStop(k: Reader, t: string, most: nat)
    requires Reads(k)
    ensures Groups(k, 0, most, ":" + t) == Some(":" + t)
  {
    LastRead(k, ":" + t);
  }

  lemma HeadFirst(h: string, n: nat, t: string) returns (g: string, r: string)
    requires n >= 1 && IsHead(h, n)
    ensures IsGroup(g) && IsHex(g[0]) && h + ("::" + t) == g + (":" + r)
    ensures (n == 1 && r == ":" + t) || exists u :: r == u + ("::" + t) && n > 1 && IsHead(u, n - 1)
  {
    if n == 1 && IsGroup(h) {
      g, r := h, ":" + t;
    } else {
      var u: string;
      g, u :| Joined(h, g, u) && IsGroup(g) && IsHead(u, n - 1);
      r := u + ("::" + t);
    }
  }

  /** Reading groups in front of a double colon stops before its second colon, or among the groups. */
  lemma {:induction false} HeadTaken(k: Reader, lo: nat, most: nat, h: string, n: nat, t: string)
    requires Reads(k) && lo <= 1 && n >= 1 && IsHead(h, n)
    ensures var s := h + ("::" + t);
      && s[0] != ':'
      && (n <= most ==> Groups(k, lo, most, s) == Some(":" + t))
      && (n > most ==>
           var r := Groups(k, lo, most, s);
           r.Some? && r.value != "" && r.value[0] != ':')
    decreases n
  {
    var g, r := HeadFirst(h, n, t);
    assert (h + ("::" + t))[0] == g[0];
    if most > 0 {
      GroupsStep(k, g, r, lo, most);
      if n == 1 && r == ":" + t {
        GroupsStop(k, t, most - 1);
      } else {
        var u :| r == u + ("::" + t) && n > 1 && IsHead(u, n - 1);
        HeadTaken(k, 0, most - 1, u, n - 1, t);
      }
    }
  }

  lemma BeforeFits(k: Reader, most: nat, h: string, n: nat, t: string)
    requires Reads(k) && n >= 1 && IsHead(h, n)
    ensures Before(k, most, h + ("::" + t)) == if n <= most then Some(t) else None
  {
    HeadTaken(k, 1, most, h, n, t);
  }

  lemma HeadOne(g: string, t: string)
    requires IsGroup(g)
    ensures IsHead(g, 1) && g + (":" + (":" + t)) == g + ("::" + t)
  {
  }

  lemma HeadMore(g: string, u: string, m: nat, t: string)
    requires IsGroup(g) && m >= 1 && IsHead(u, m)
    ensures IsHead(g + (":" + u), m + 1)
    ensures g + (":" + (u + ("::" + t))) == g + (":" + u) + ("::" + t)
  {
    assert Joined(g + (":" + u), g, u);
  }

  lemma {:induction false} HeadWas(k: Reader, lo: nat, most: nat, s: string, t: string) returns (h: string, n: nat)
    requires Reads(k) && lo <= 1 && most > 0
    requires Groups(k, lo, most, s) == Some(":" + t) && k.group(s).Some?
    ensures 1 <= n <= most && IsHead(h, n) && s == h + ("::" + t)
    decreases most
  {
    var r := k.group(s).value;
    var g := GroupWas(k, s, r);
    GroupsStep(k, g, r, lo, most);
    if most == 1 || k.group(r) == None {
      h, n := g, 1;
      HeadOne(g, t);
    } else {
      var u, m := HeadWas(k, 0, most - 1, r, t);
      h, n := g + (":" + u), m + 1;
      HeadMore(g, u, m, t);
    }
  }

  lemma BeforeWas(k: Reader, most: nat, s: string, t: string) returns (h: string, n: nat)
    requires Reads(k) && Before(k, most, s) == Some(t) && most > 0
    ensures 1 <= n <= most && IsHead(h, n) && s == h + ("::" + t)
  {
    assert Groups(k, 1, most, s).value == ":" + t;
    h, n := HeadWas(k, 1, most, s, t);
  }

  // ----- the first alternative that matches

  lemma {:induction false} AfterStopsAtColons(k: Reader, h: string, n: nat, t: string, m: nat)
    requires Reads(k) && n >= 1 && IsHead(h, n) && m >= n + 2
    ensures After(k, m, h + ("::" + t)) == None
    decreases n
  {
    var g, r := HeadFirst(h, n, t);
    AfterStep(k, g, r, m);
    if n == 1 && r == ":" + t {
      AfterAtColon(k, r, m - 1);
    } else {
      var u :| r == u + ("::" + t) && n > 1 && IsHead(u, n - 1);
      AfterStopsAtColons(k, u, n - 1, t, m - 1);
    }
  }

  lemma AfterAtColon(k: Reader, s: string, m: nat)
    requires Reads(k) && s != "" && s[0] == ':' && m >= 1
    ensures After(k, m, s) == None
  {
    LastRead(k, s);
  }

  lemma AfterTooMany(k: Reader, t: string, after: nat, m: nat)
    requires Reads(k) && (if after == 0 then t == "" else IsTail(t, after)) && m > after
    ensures After(k, m, t) == None
  {
    if after > 0 { AfterFits(k, after, t, m); } else { LastRead(k, ""); }
  }

  function Chosen(before: nat, after: nat): nat
    requires before + after <= 6
  {
    if before == 0 then 7 - after else 13 - after
  }

  /** In a string with a double colon, the alternative for its number of groups is the first to match. */
  lemma EarlierFail(k: Reader, s: string, h: string, before: nat, t: string, after: nat, i: nat)
    requires Reads(k) && IsShort(s, h, before, t, after) && before + after <= 6
    requires i < Chosen(before, after)
    ensures Alternative(k, i, s) == None
  {
    if before == 0 {
      assert s[2..] == t;
      if i == 0 { AfterAtColon(k, s, 8); } else { AfterTooMany(k, t, after, 7 - i); }
    } else if i == 0 {
      AfterStopsAtColons(k, h, before, t, 8);
    } else if i <= 7 {
      HeadTaken(k, 1, 6, h, before, t);
    } else {
      BeforeFits(k, i - 7, h, before, t);
      AfterTooMany(k, t, after, 13 - i);
    }
  }

  lemma FullMatch(k: Reader, s: string, h: string, before: nat, t: string, after: nat)
    requires Reads(k) && IsShort(s, h, before, t, after) && before + after <= 6
    ensures Alternative(k, Chosen(before, after), s) == Some("")
  {
    if after > 0 { AfterFits(k, after, t, after); }
    if before == 0 {
      assert s[2..] == t;
    } else {
      BeforeFits(k, 6 - after, h, before, t);
    }
  }

  /** The string that the counting rule describes is matched whole by the first matching alternative. */
  lemma FirstMatches(k: Reader, s: string) returns (i: nat)
    requires Reads(k) && IsIpv6(s)
    ensures i <= 13 && Alternative(k, i, s) == Some("")
    ensures forall j :: 0 <= j < i ==> Alternative(k, j, s) == None
  {
    if IsTail(s, 8) {
      AfterFits(k, 8, s, 8);
      i := 0;
    } else {
      var h, before: nat, t, after: nat :| IsShort(s, h, before, t, after) && before + after <= 6;
      i := Chosen(before, after);
      FullMatch(k, s, h, before, t, after);
      forall j | 0 <= j < i ensures Alternative(k, j, s) == None {
        EarlierFail(k, s, h, before, t, after, j);
      }
    }
  }

  lemma ColonsFirstWas(k: Reader, i: nat, s: string)
    requires Reads(k) && 1 <= i <= 7 && Alternative(k, i, s) == Some("")
    ensures IsIpv6(s)
  {
    var t := s[2..];
    if i < 7 { AfterWas(k, 7 - i, t); }
    assert IsShort(s, "", 0, t, 7 - i);
  }

  lemma GroupsFirstWas(k: Reader, i: nat, s: string)
    requires Reads(k) && 8 <= i <= 13 && Alternative(k, i, s) == Some("")
    ensures IsIpv6(s)
  {
    var t := Before(k, i - 7, s).value;
    var h, n := BeforeWas(k, i - 7, s, t);
    if i < 13 { AfterWas(k, 13 - i, t); }
    assert IsShort(s, h, n, t, 13 - i);
  }

  /** Whatever alternative matches all of a string, the counting rule describes the string. */
  lemma AnyMatchCounts(k: Reader, i: nat, s: string)
    requires Reads(k) && i <= 13 && Alternative(k, i, s) == Some("")
    ensures IsIpv6(s)
  {
    if i == 0 { AfterWas(k, 8, s); }
    else if i <= 7 { ColonsFirstWas(k, i, s); }
    else { GroupsFirstWas(k, i, s); }
  }

  // ----- the division of a string around its double colon is unique

  lemma SameBefore(k: Reader, s: string, h: string, b: nat, t: string, h': string, b': nat, t': string)
    requires Reads(k) && b >= 1 && b' >= 1 && IsHead(h, b) && IsHead(h', b')
    requires s == h + ("::" + t) == h' + ("::" + t')
    ensures t == t' && b == b'
  {
    BeforeFits(k, b, h, b, t);
    BeforeFits(k, b', h, b, t);
    BeforeFits(k, b, h', b', t');
    BeforeFits(k, b', h', b', t');
  }

  lemma SameAfter(k: Reader, t: string, a: nat, a': nat)
    requires Reads(k)
    requires if a == 0 then t == "" else IsTail(t, a)
    requires if a' == 0 then t == "" else IsTail(t, a')
    ensures a == a'
  {
    if a > 0 { AfterFits(k, a, t, a); }
    if a' > 0 { AfterFits(k, a', t, a'); }
    if a < a' { AfterTooMany(k, t, a, a'); }
    if a' < a { AfterTooMany(k, t, a', a); }
  }

  lemma HeadStart(h: string, n: nat)
    requires n >= 1 && IsHead(h, n)
    ensures h != "" && h[0] != ':'
  {
    var g, r := HeadFirst(h, n, "");
    if n == 1 && IsGroup(h) {
      assert IsHex(h[0]);
    } else {
      var g, u :| Joined(h, g, u) && IsGroup(g) && IsHead(u, n - 1);
      assert h[0] == g[0] && IsHex(g[0]);
    }
  }

  lemma ShortUnique(k: Reader, s: string, h: string, b: nat, t: string, a: nat,
                    h': string, b': nat, t': string, a': nat)
    requires Reads(k) && IsShort(s, h, b, t, a) && IsShort(s, h', b', t', a')
    ensures h == h' && b == b' && t == t' && a == a'
  {
    if b > 0 { HeadStart(h, b); assert s[0] == h[0]; }
    if b' > 0 { HeadStart(h', b'); assert s[0] == h'[0]; }
    if b > 0 {
      SameBefore(k, s, h, b, t, h', b', t');
    } else {
      assert t == s[2..] && t' == s[2..];
    }
    assert h == s[..|s| - |t| - 2] && h' == s[..|s| - |t| - 2];
    SameAfter(k, t, a, a');
  }

  lemma TailStart(s: string, n: nat)
    requires n >= 1 && IsTail(s, n)
    ensures s != "" && s[0] != ':'
  {
    if n == 2 && IsIpv4(s) {
      var a, b, c, d :| Dotted(s, a, b, c, d) && IsOctet(a) && IsOctet(b) && IsOctet(c) && IsOctet(d);
      assert s[0] == a[0] && IsDigit(a[0]);
    } else if n == 1 && IsGroup(s) {
      assert IsHex(s[0]);
    } else {
      var g, t := TailFirst(s, n);
      assert s[0] == g[0] && IsHex(g[0]);
    }
  }

  /** Groups in a full address are never followed by two colons. */
  lemma {:induction false} NoColonsInTail(k: Reader, s: string, n: nat, h: string, m: nat, t: string)
    requires Reads(k) && n >= 1 && IsTail(s, n) && (if m == 0 then h == "" else IsHead(h, m))
    ensures s != h + ("::" + t)
    decreases n
  {
    TailStart(s, n);
    if m > 0 && s == h + ("::" + t) {
      var g, r := HeadFirst(h, m, t);
      GroupRead(k, g, r);
      LastRead(k, s);
      var g', t' := TailFirst(s, n);
      GroupRead(k, g', t');
      if m == 1 && r == ":" + t {
        TailStart(r, n - 1);
      } else {
        var u :| r == u + ("::" + t) && m > 1 && IsHead(u, m - 1);
        NoColonsInTail(k, r, n - 1, u, m - 1, t);
      }
      assert false;
    }
  }
}
