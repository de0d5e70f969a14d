/** The table of service names: no name occurs in a later one, so each name becomes its own port. */
module ServiceNames {
  import opened Common
  import opened PortText
  import opened PortRanges

  // ----- two letters that tell a name from all later ones, but for the pairs that need a closer look

  const HYPHENATED_PROBES := ["ay", "-g", "nv", "bn", "uu", "-m", "-a", "-r", "66", "--"]
  const S_TO_T_PROBES := ["el", "cs", "yy", "hs", "ar", "ns", "mt", "fs", "rt", "ir"]
  const H_TO_R_PROBES := ["33", "np", "ag", "ll", "ll", "ds", "ll", "rr", "kk", "hs"]
  const B_TO_F_PROBES := ["hp", "fp", "ee", "ii", "mm", "aa", "ss", "cc", "gg", "bb"]

  predicate Both(probe: string, s: string) {
    |probe| == 2 && probe[0] in s && probe[1] in s
  }

  /** Each name has its two letters. */
  predicate Fit(probes: seq<string>, names: seq<(string, string)>) {
    |probes| == |names| == 10 && forall j :: 0 <= j < 10 ==> names[j].0 != "" && Both(probes[j], names[j].0)
  }

  /** The two letters of a pair are in no name of the later part. */
  predicate Apart(probes: seq<string>, later: seq<(string, string)>) {
    |probes| == |later| == 10 && forall j, i :: 0 <= j < 10 && 0 <= i < 10 ==> !Both(probes[j], later[i].0)
  }

  lemma {:induction false} OccursLetters(s: string, find: string, c: char)
    requires find != "" && Occurs(s, find) && c in find
    ensures c in s
  {
    if StartsWith(s, find) {
      assert find == s[..|find|];
    } else {
      OccursLetters(s[1..], find, c);
    }
  }

  lemma {:induction false} OccursAdjacent(s: string, find: string, m: nat)
    requires m + 1 < |find| && Occurs(s, find)
    ensures exists k :: 0 <= k < |s| - 1 && s[k] == find[m] && s[k + 1] == find[m + 1]
  {
    if StartsWith(s, find) {
      assert s[..|find|][m] == s[m] && s[..|find|][m + 1] == s[m + 1];
    } else {
      OccursAdjacent(s[1..], find, m);
      var k :| 0 <= k < |s[1..]| - 1 && s[1..][k] == find[m] && s[1..][k + 1] == find[m + 1];
      assert s[k + 1] == find[m] && s[k + 1 + 1] == find[m + 1];
    }
  }

  lemma NotBoth(s: string, find: string, probe: string)
    requires find != "" && Both(probe, find) && !Both(probe, s)
    ensures !Occurs(s, find)
  {
    if Occurs(s, find) {
      OccursLetters(s, find, probe[0]);
      OccursLetters(s, find, probe[1]);
    }
  }

  lemma NotAdjacent(s: string, find: string, m: nat)
    requires m + 1 < |find|
    requires forall k :: 0 <= k < |s| - 1 ==> s[k] != find[m] || s[k + 1] != find[m + 1]
    ensures !Occurs(s, find)
  {
    if Occurs(s, find) { OccursAdjacent(s, find, m); }
  }

  // ----- no name of a part occurs in a name of a later part

  predicate NoneIn(earlier: seq<(string, string)>, later: seq<(string, string)>) {
    forall j, i :: 0 <= j < |earlier| && 0 <= i < |later| ==> !Occurs(later[i].0, earlier[j].0)
  }

  lemma ApartIsNoneIn(earlier: seq<(string, string)>, probes: seq<string>, later: seq<(string, string)>)
    requires Fit(probes, earlier) && Apart(probes, later)
    ensures NoneIn(earlier, later)
  {
    forall j, i | 0 <= j < 10 && 0 <= i < 10 ensures !Occurs(later[i].0, earlier[j].0) {
      NotBoth(later[i].0, earlier[j].0, probes[j]);
    }
  }

  lemma HyphenatedFit()
    ensures Fit(HYPHENATED_PROBES, HYPHENATED)
  {
  }

  lemma SToTFit()
    ensures Fit(S_TO_T_PROBES, S_TO_T)
  {
  }

  lemma HToRFit()
    ensures Fit(H_TO_R_PROBES, H_TO_R)
  {
  }

  lemma BToFFit()
    ensures Fit(B_TO_F_PROBES, B_TO_F)
  {
  }

  lemma ProbesFit()
    ensures Fit(HYPHENATED_PROBES, HYPHENATED) && Fit(S_TO_T_PROBES, S_TO_T)
    ensures Fit(H_TO_R_PROBES, H_TO_R) && Fit(B_TO_F_PROBES, B_TO_F)
  {
    HyphenatedFit();
    SToTFit();
    HToRFit();
    BToFFit();
  }

  lemma HyphenatedFromSToT()
    ensures Apart(HYPHENATED_PROBES, S_TO_T)
  {
  }

  lemma HyphenatedFromHToR()
    ensures Apart(HYPHENATED_PROBES, H_TO_R)
  {
  }

  lemma HyphenatedFromBToF()
    ensures Apart(HYPHENATED_PROBES, B_TO_F)
  {
  }

  lemma FirstSToTFromBToF(j: nat, i: nat)
    requires j < 5 && i < 10
    ensures !Both(S_TO_T_PROBES[j], B_TO_F[i].0)
  {
  }

  lemma LastSToTFromBToF(j: nat, i: nat)
    requires 5 <= j < 10 && i < 10
    ensures !Both(S_TO_T_PROBES[j], B_TO_F[i].0)
  {
  }

  lemma SToTFromBToF()
    ensures Apart(S_TO_T_PROBES, B_TO_F)
  {
    forall j, i | 0 <= j < 10 && 0 <= i < 10 ensures !Both(S_TO_T_PROBES[j], B_TO_F[i].0) {
      if j < 5 { FirstSToTFromBToF(j, i); } else { LastSToTFromBToF(j, i); }
    }
  }

  lemma HToRFromBToF()
    ensures Apart(H_TO_R_PROBES, B_TO_F)
  {
  }

  /** All but "ssh" and "https", whose letters do not tell. */
  lemma SToTFromHToR(j: nat, i: nat)
    requires j < 10 && i < 10 && !(j == 3 && i == 9)
    ensures !Both(S_TO_T_PROBES[j], H_TO_R[i].0)
  {
  }

  lemma NoSsh()
    ensures !Occurs(H_TO_R[9].0, S_TO_T[3].0)
  {
    NotAdjacent(H_TO_R[9].0, S_TO_T[3].0, 0);
  }

  lemma SToTNotInHToR()
    ensures NoneIn(S_TO_T, H_TO_R)
  {
    ProbesFit();
    NoSsh();
    forall j, i | 0 <= j < 10 && 0 <= i < 10 ensures !Occurs(H_TO_R[i].0, S_TO_T[j].0) {
      if !(j == 3 && i == 9) {
        SToTFromHToR(j, i);
        NotBoth(H_TO_R[i].0, S_TO_T[j].0, S_TO_T_PROBES[j]);
      }
    }
  }

  // ----- no name of a part occurs in a later name of the part

  predicate Ordered(table: seq<(string, string)>) {
    forall j, i :: 0 <= j < i < |table| ==> !Occurs(table[i].0, table[j].0)
  }

  /** The letters of each name tell it from the later ones, but for names that are known not to occur. */
  predicate ApartLater(probes: seq<string>, names: seq<(string, string)>) {
    && |probes| == |names| == 10
    && forall j, i :: 0 <= j < i < 10 ==> !Both(probes[j], names[i].0) || !Occurs(names[i].0, names[j].0)
  }

  lemma ApartIsOrdered(probes: seq<string>, names: seq<(string, string)>)
    requires Fit(probes, names) && ApartLater(probes, names)
    ensures Ordered(names)
  {
    forall j, i | 0 <= j < i < |names| ensures !Occurs(names[i].0, names[j].0) {
      if !Both(probes[j], names[i].0) { NotBoth(names[i].0, names[j].0, probes[j]); }
    }
  }

  lemma NoPtpEvent()
    ensures !Occurs(HYPHENATED[8].0, HYPHENATED[2].0)
  {
    NotAdjacent(HYPHENATED[8].0, HYPHENATED[2].0, 0);
  }

  lemma FirstHyphenated(j: nat, i: nat)
    requires j < i < 10 && j < 2
    ensures !Both(HYPHENATED_PROBES[j], HYPHENATED[i].0)
  {
  }

  lemma NextHyphenated(j: nat, i: nat)
    requires 2 <= j < i < 10 && j < 4 && !(j == 2 && i == 8)
    ensures !Both(HYPHENATED_PROBES[j], HYPHENATED[i].0)
  {
  }

  lemma LastHyphenated(j: nat, i: nat)
    requires 4 <= j < i < 10
    ensures !Both(HYPHENATED_PROBES[j], HYPHENATED[i].0)
  {
  }

  lemma HyphenatedLater()
    ensures ApartLater(HYPHENATED_PROBES, HYPHENATED)
  {
    NoPtpEvent();
    forall j, i | 0 <= j < i < 10
      ensures !Both(HYPHENATED_PROBES[j], HYPHENATED[i].0) || !Occurs(HYPHENATED[i].0, HYPHENATED[j].0)
    {
      if j >= 4 {
        LastHyphenated(j, i);
      } else if j < 2 {
        FirstHyphenated(j, i);
      } else if !(j == 2 && i == 8) {
        NextHyphenated(j, i);
      }
    }
  }

  lemma SToTApart(j: nat, i: nat)
    requires j < i < 10
    ensures !Both(S_TO_T_PROBES[j], S_TO_T[i].0)
  {
  }

  lemma SToTLater()
    ensures ApartLater(S_TO_T_PROBES, S_TO_T)
  {
    forall j, i | 0 <= j < i < 10
      ensures !Both(S_TO_T_PROBES[j], S_TO_T[i].0) || !Occurs(S_TO_T[i].0, S_TO_T[j].0)
    {
      SToTApart(j, i);
    }
  }

  lemma NoLpdOrLdp(j: nat, i: nat)
    requires 3 <= j < i <= 6 && j < 5
    ensures !Occurs(H_TO_R[i].0, H_TO_R[j].0)
  {
    NotAdjacent(H_TO_R[i].0, H_TO_R[j].0, if j == 3 then 0 else 1);
  }

  lemma HToRApart(j: nat, i: nat)
    requires 0 <= j < i < 10 && !(3 <= j < i <= 6 && j < 5)
    ensures !Both(H_TO_R_PROBES[j], H_TO_R[i].0)
  {
  }

  lemma HToRLater()
    ensures ApartLater(H_TO_R_PROBES, H_TO_R)
  {
    forall j, i | 0 <= j < i < 10
      ensures !Both(H_TO_R_PROBES[j], H_TO_R[i].0) || !Occurs(H_TO_R[i].0, H_TO_R[j].0)
    {
      if 3 <= j < i <= 6 && j < 5 { NoLpdOrLdp(j, i); } else { HToRApart(j, i); }
    }
  }

  lemma BToFApart(j: nat, i: nat)
    requires j < i < 10
    ensures !Both(B_TO_F_PROBES[j], B_TO_F[i].0)
  {
  }

  lemma BToFLater()
    ensures ApartLater(B_TO_F_PROBES, B_TO_F)
  {
    forall j, i | 0 <= j < i < 10
      ensures !Both(B_TO_F_PROBES[j], B_TO_F[i].0) || !Occurs(B_TO_F[i].0, B_TO_F[j].0)
    {
      BToFApart(j, i);
    }
  }

  // ----- the whole table

  lemma OrderedConcat(a: seq<(string, string)>, b: seq<(string, string)>)
    requires Ordered(a) && Ordered(b) && NoneIn(a, b)
    ensures Ordered(a + b)
  {
  }

  lemma NoneInConcat(a: seq<(string, string)>, b: seq<(string, string)>, later: seq<(string, string)>)
    requires NoneIn(a, later) && NoneIn(b, later)
    ensures NoneIn(a + b, later)
  {
  }

  lemma PartsOrdered()
    ensures Ordered(HYPHENATED) && Ordered(S_TO_T) && Ordered(H_TO_R) && Ordered(B_TO_F)
  {
    ProbesFit();
    HyphenatedLater();
    SToTLater();
    HToRLater();
    BToFLater();
    ApartIsOrdered(HYPHENATED_PROBES, HYPHENATED);
    ApartIsOrdered(S_TO_T_PROBES, S_TO_T);
    ApartIsOrdered(H_TO_R_PROBES, H_TO_R);
    ApartIsOrdered(B_TO_F_PROBES, B_TO_F);
  }

  lemma PartsApart()
    ensures NoneIn(HYPHENATED, S_TO_T) && NoneIn(HYPHENATED, H_TO_R) && NoneIn(HYPHENATED, B_TO_F)
    ensures NoneIn(S_TO_T, H_TO_R) && NoneIn(S_TO_T, B_TO_F) && NoneIn(H_TO_R, B_TO_F)
  {
    ProbesFit();
    HyphenatedFromSToT();
    HyphenatedFromHToR();
    HyphenatedFromBToF();
    SToTNotInHToR();
    SToTFromBToF();
    HToRFromBToF();
    ApartIsNoneIn(HYPHENATED, HYPHENATED_PROBES, S_TO_T);
    ApartIsNoneIn(HYPHENATED, HYPHENATED_PROBES, H_TO_R);
    ApartIsNoneIn(HYPHENATED, HYPHENATED_PROBES, B_TO_F);
    ApartIsNoneIn(S_TO_T, S_TO_T_PROBES, B_TO_F);
    ApartIsNoneIn(H_TO_R, H_TO_R_PROBES, B_TO_F);
  }

  lemma MappingsOrdered()
    ensures Ordered(MAPPINGS)
  {
    PartsOrdered();
    PartsApart();
    OrderedConcat(HYPHENATED, S_TO_T);
    NoneInConcat(HYPHENATED, S_TO_T, H_TO_R);
    OrderedConcat(HYPHENATED + S_TO_T, H_TO_R);
    NoneInConcat(HYPHENATED, S_TO_T, B_TO_F);
    NoneInConcat(HYPHENATED + S_TO_T, H_TO_R, B_TO_F);
    OrderedConcat(HYPHENATED + S_TO_T + H_TO_R, B_TO_F);
  }

  // ----- ports

  predicate PortsOnly(table: seq<(string, string)>) {
    forall i :: 0 <= i < |table| ==> NoLetters(table[i].1)
  }

  lemma PortsOnlyConcat(a: seq<(string, string)>, b: seq<(string, string)>)
    requires PortsOnly(a) && PortsOnly(b)
    ensures PortsOnly(a + b)
  {
  }

  lemma {:induction false} NoneIsLetter(s: string)
    requires forall c :: c in s ==> !IsLetter(c)
    ensures NoLetters(s)
  {
    if s != "" {
      assert s[0] in s;
      NoneIsLetter(s[1..]);
    }
  }

  lemma PortHasNoLetter(i: nat, c: char)
    requires i < 10 && IsLetter(c)
    ensures c !in HYPHENATED[i].1 && c !in S_TO_T[i].1 && c !in H_TO_R[i].1 && c !in B_TO_F[i].1
  {
  }

  lemma PartPorts(table: seq<(string, string)>)
    requires forall i, c: char :: 0 <= i < |table| && IsLetter(c) ==> c !in table[i].1
    ensures PortsOnly(table)
  {
    forall i | 0 <= i < |table| ensures NoLetters(table[i].1) { NoneIsLetter(table[i].1); }
  }

  lemma TenEach()
    ensures |HYPHENATED| == |S_TO_T| == |H_TO_R| == |B_TO_F| == 10
  {
  }

  lemma PartsPorts()
    ensures PortsOnly(HYPHENATED) && PortsOnly(S_TO_T) && PortsOnly(H_TO_R) && PortsOnly(B_TO_F)
  {
    TenEach();
    forall i, c: char | 0 <= i < 10 && IsLetter(c)
      ensures c !in HYPHENATED[i].1 && c !in S_TO_T[i].1 && c !in H_TO_R[i].1 && c !in B_TO_F[i].1
    {
      PortHasNoLetter(i, c);
    }
    PartPorts(HYPHENATED);
    PartPorts(S_TO_T);
    PartPorts(H_TO_R);
    PartPorts(B_TO_F);
  }

  lemma FourPorts(a: seq<(string, string)>, b: seq<(string, string)>,
                  c: seq<(string, string)>, d: seq<(string, string)>)
    requires PortsOnly(a) && PortsOnly(b) && PortsOnly(c) && PortsOnly(d)
    ensures PortsOnly(a + b + c + d)
  {
    PortsOnlyConcat(a, b);
    PortsOnlyConcat(a + b, c);
    PortsOnlyConcat(a + b + c, d);
  }

  lemma MappingsPorts()
    ensures PortsOnly(MAPPINGS)
  {
    PartsPorts();
    FourPorts(HYPHENATED, S_TO_T, H_TO_R, B_TO_F);
  }

  /** In a table whose names do not occur in later ones every name becomes its own port. */
  lemma OrderedNamesBecomePorts(table: seq<(string, string)>, i: nat)
    requires Names(table) && Ordered(table) && PortsOnly(table) && i < |table|
    ensures Translated(table[i].0, table) == table[i].1
  {
    NameBecomesPort(table, i);
  }

  /** Every name of the table becomes its own port. */
  lemma NamesBecomePorts(i: nat)
    requires i < |MAPPINGS|
    ensures Names(MAPPINGS) && Translated(MAPPINGS[i].0, MAPPINGS) == MAPPINGS[i].1
  {
    MappingsAreNames();
    MappingsOrdered();
    MappingsPorts();
    OrderedNamesBecomePorts(MAPPINGS, i);
  }

  // ----- the names and their ports

  lemma Listed(name: string, port: string)
    requires (name, port) in HYPHENATED || (name, port) in S_TO_T || (name, port) in H_TO_R || (name, port) in B_TO_F
    ensures Becomes(name, port)
  {
    assert (name, port) in MAPPINGS;
    var i :| 0 <= i < |MAPPINGS| && MAPPINGS[i] == (name, port);
    NamesBecomePorts(i);
  }

  /** The name is translated to the port. */
  predicate Becomes(name: string, port: string) {
    Names(MAPPINGS) && Translated(name, MAPPINGS) == port
  }

  lemma HyphenatedPorts()
    ensures Becomes("any", "0-65535") && Becomes("ptp-general", "320")
    ensures Becomes("ptp-event", "319") && Becomes("netbios-ns", "137")
    ensures Becomes("multihop-bfd", "4784") && Becomes("micro-bfd", "6784")
    ensures Becomes("ftp-data", "20") && Becomes("dhcpv6-server", "547")
    ensures Becomes("dhcpv6-client", "546") && Becomes("bfd-echo", "3785")
  {
    Listed("any", "0-65535");
    Listed("ptp-general", "320");
    Listed("ptp-event", "319");
    Listed("netbios-ns", "137");
    Listed("multihop-bfd", "4784");
    Listed("micro-bfd", "6784");
    Listed("ftp-data", "20");
    Listed("dhcpv6-server", "547");
    Listed("dhcpv6-client", "546");
    Listed("bfd-echo", "3785");
  }

  lemma SToTPorts()
    ensures Becomes("telnet", "23") && Becomes("tacacs", "49")
    ensures Becomes("syslog", "514") && Becomes("ssh", "22")
    ensures Becomes("snmptrap", "162") && Becomes("snmp", "161")
    ensures Becomes("smtp", "25") && Becomes("sbfd", "7784")
    ensures Becomes("rtsp", "554") && Becomes("rip", "520")
  {
    Listed("telnet", "23");
    Listed("tacacs", "49");
    Listed("syslog", "514");
    Listed("ssh", "22");
    Listed("snmptrap", "162");
    Listed("snmp", "161");
    Listed("smtp", "25");
    Listed("sbfd", "7784");
    Listed("rtsp", "554");
    Listed("rip", "520");
  }

  lemma HToRPorts()
    ensures Becomes("pop3", "110") && Becomes("ntp", "123")
    ensures Becomes("mlag", "4432") && Becomes("lpd", "515")
    ensures Becomes("ldp", "646") && Becomes("ldaps", "636")
    ensures Becomes("ldap", "389") && Becomes("kerberos", "88")
    ensures Becomes("isakmp", "500") && Becomes("https", "443")
  {
    Listed("pop3", "110");
    Listed("ntp", "123");
    Listed("mlag", "4432");
    Listed("lpd", "515");
    Listed("ldp", "646");
    Listed("ldaps", "636");
    Listed("ldap", "389");
    Listed("kerberos", "88");
    Listed("isakmp", "500");
    Listed("https", "443");
  }

  lemma BToFPorts()
    ensures Becomes("http", "80") && Becomes("ftp", "21")
    ensures Becomes("echo", "7") && Becomes("domain", "53")
    ensures Becomes("cmd", "514") && Becomes("capwap", "5246-5247")
    ensures Becomes("bootps", "67") && Becomes("bootpc", "68")
    ensures Becomes("bgp", "179") && Becomes("bfd", "3784")
  {
    Listed("http", "80");
    Listed("ftp", "21");
    Listed("echo", "7");
    Listed("domain", "53");
    Listed("cmd", "514");
    Listed("capwap", "5246-5247");
    Listed("bootps", "67");
    Listed("bootpc", "68");
    Listed("bgp", "179");
    Listed("bfd", "3784");
  }
}
