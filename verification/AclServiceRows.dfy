/** The rows of a service: its protocols, and its source and destination ports. */
module AclServiceRows {
  import opened Common
  import opened PortText
  import opened PortRanges
  import opened PortMeaning
  import opened AclServices

  datatype Row =
    | ProtocolRow(service: string, protocol: string)
    | PortRow(service: string, protocol: string, src: Ports, dst: Ports)

  // ----- taking a service text apart

  /** The text before the first occurrence of a mark. */
  function Until(s: string, mark: string): string
    decreases |s|
  {
    if s == "" || StartsWith(s, mark) then "" else [s[0]] + Until(s[1..], mark)
  }

  /** The parts between colons. */
  function Split(s: string): (parts: seq<string>)
    ensures parts != []
    decreases |s|
  {
    if s == "" then [""]
    else if s[0] == ':' then [""] + Split(s[1..])
    else
      var rest := Split(s[1..]);
      [[s[0]] + rest[0]] + rest[1..]
  }

  predicate NotColon(c: char) {
    c != ':'
  }

  lemma {:induction false} SplitFirst(a: string, rest: string)
    requires All(NotColon, a)
    ensures Split(a + ([':'] + rest)) == [a] + Split(rest)
    decreases |a|
  {
    var s := a + ([':'] + rest);
    if a == "" {
      assert s == [':'] + rest && s[1..] == rest;
    } else {
      SplitFirst(a[1..], rest);
      assert s[1..] == a[1..] + ([':'] + rest) && s[0] == a[0];
      assert a == [a[0]] + a[1..];
    }
  }

  lemma {:induction false} SplitLast(a: string)
    requires All(NotColon, a)
    ensures Split(a) == [a]
    decreases |a|
  {
    if a != "" {
      SplitLast(a[1..]);
      assert a == [a[0]] + a[1..];
    }
  }

  /** The parts of a service text without its options. */
  function Parts(data: string): (parts: seq<string>)
    ensures parts != []
  {
    Split(Until(Until(data, "--established"), "--tracked"))
  }

  const INT_MAX := 2147483647

  /** The protocols a name stands for; `byNumber` looks up the name of a protocol number. */
  function Protocols(name: string, byNumber: nat -> Option<string>): seq<string> {
    if name == "tcp-udp" then ["tcp", "udp"]
    else if name == "tcp-ms-rpc" || name == "tcp-sun-rpc" then ["tcp"]
    else if name == "udp-ms-rpc" || name == "udp-sun-rpc" then ["udp"]
    else if All(IsDigit, name) && name != "" && Value(name) <= INT_MAX then
      match byNumber(Value(name))
      case Some(known) => [known]
      case None => []
    else [name]
  }

  function SrcText(parts: seq<string>): string {
    if 3 <= |parts| then parts[1] else ""
  }

  function DstText(parts: seq<string>): string {
    if 3 <= |parts| then parts[2] else ""
  }

  /** Two rows for each protocol. */
  function RowsFor(service: string, protocols: seq<string>, src: Ports, dst: Ports): (rows: seq<Row>) {
    if protocols == [] then []
    else
      var n := |protocols| - 1;
      RowsFor(service, protocols[..n], src, dst) +
      [ProtocolRow(service, protocols[n]), PortRow(service, protocols[n], src, dst)]
  }

  /** The rows of a service text, as its parts give them. */
  ghost function RowsOf(service: string, data: string, byNumber: nat -> Option<string>): seq<Row> {
    var parts := Parts(data);
    RowsFor(service, Protocols(parts[0], byNumber),
            Converted(Alias(SrcText(parts))), Converted(Alias(DstText(parts))))
  }

  method ServiceRows(service: string, data: string, byNumber: nat -> Option<string>) returns (rows: seq<Row>)
    ensures rows == RowsOf(service, data, byNumber)
  {
    var s := Until(data, "--established");
    s := Until(s, "--tracked");
    var parts := Split(s);
    var protocol := parts[0];
    var srcData, dstData := "", "";
    if 3 <= |parts| {
      srcData := parts[1];
      dstData := parts[2];
    }
    var protocols := ServiceProtocols(protocol, byNumber);
    var src := ConvertToPortRange(srcData);
    var dst := ConvertToPortRange(dstData);
    rows := [];
    for i := 0 to |protocols|
      invariant rows == RowsFor(service, protocols[..i], src, dst)
    {
      assert protocols[..i + 1][..i] == protocols[..i];
      rows := rows + [ProtocolRow(service, protocols[i])];
      rows := rows + [PortRow(service, protocols[i], src, dst)];
    }
    assert protocols[..|protocols|] == protocols;
  }

  method ServiceProtocols(protocol: string, byNumber: nat -> Option<string>) returns (protocols: seq<string>)
    ensures protocols == Protocols(protocol, byNumber)
  {
    protocols := [];
    if protocol == "tcp-udp" {
      protocols := protocols + ["tcp"];
      protocols := protocols + ["udp"];
    } else if protocol == "tcp-ms-rpc" || protocol == "tcp-sun-rpc" {
      protocols := protocols + ["tcp"];
    } else if protocol == "udp-ms-rpc" || protocol == "udp-sun-rpc" {
      protocols := protocols + ["udp"];
    } else if protocol != "" && IsDigit(protocol[0]) {
      if All(IsDigit, protocol) && Value(protocol) <= INT_MAX {
        var known := byNumber(Value(protocol));
        if known.Some? { protocols := protocols + [known.value]; }
      } else {
        protocols := protocols + [protocol];
      }
    } else {
      protocols := protocols + [protocol];
    }
  }

  // ----- what the rows denote

  /** Some row allows the protocol from the one port to the other. */
  predicate Denotes(rows: seq<Row>, service: string, q: string, s: nat, d: nat) {
    exists i :: 0 <= i < |rows| && rows[i].PortRow? && rows[i].service == service && rows[i].protocol == q &&
      InPorts(rows[i].src, s) && InPorts(rows[i].dst, d)
  }

  lemma DenotesMore(rows: seq<Row>, more: seq<Row>, service: string, q: string, s: nat, d: nat)
    ensures Denotes(rows + more, service, q, s, d) <==>
      Denotes(rows, service, q, s, d) || Denotes(more, service, q, s, d)
  {
    if Denotes(rows, service, q, s, d) {
      var i :| 0 <= i < |rows| && rows[i].PortRow? && rows[i].service == service && rows[i].protocol == q &&
        InPorts(rows[i].src, s) && InPorts(rows[i].dst, d);
      assert (rows + more)[i] == rows[i];
    }
    if Denotes(more, service, q, s, d) {
      var i :| 0 <= i < |more| && more[i].PortRow? && more[i].service == service && more[i].protocol == q &&
        InPorts(more[i].src, s) && InPorts(more[i].dst, d);
      assert (rows + more)[|rows| + i] == more[i];
    }
  }

  lemma {:induction false} RowsDenote(service: string, protocols: seq<string>, src: Ports, dst: Ports, q: string,
                                      s: nat, d: nat)
    ensures Denotes(RowsFor(service, protocols, src, dst), service, q, s, d) <==>
      q in protocols && InPorts(src, s) && InPorts(dst, d)
    decreases |protocols|
  {
    if protocols != [] {
      var n := |protocols| - 1;
      RowsDenote(service, protocols[..n], src, dst, q, s, d);
      var last := [ProtocolRow(service, protocols[n]), PortRow(service, protocols[n], src, dst)];
      DenotesMore(RowsFor(service, protocols[..n], src, dst), last, service, q, s, d);
      assert last[1] == PortRow(service, protocols[n], src, dst);
      assert protocols == protocols[..n] + [protocols[n]];
    }
  }

  /** The ports a port text names: all of them if it is empty. */
  ghost predicate Means(text: string, k: nat) {
    Alias(text) == "" || exists f :: Plain(Alias(text), f) && Covers(f, k)
  }

  /** The text is empty, or plain with its numbers in bounds. */
  ghost predicate Exact(text: string) {
    Alias(text) == "" || exists f :: Plain(Alias(text), f) && InBounds(f)
  }

  lemma MeansIsConverted(text: string, k: nat)
    requires Exact(text) && k < PORTS
    ensures InPorts(Converted(Alias(text)), k) <==> Means(text, k)
  {
    var s := Alias(text);
    if s != "" {
      var f :| Plain(s, f) && InBounds(f);
      ConvertedAs(s, f);
      RightInBounds(f);
      forall g | Plain(s, g) ensures g == f {
        PlainIsWritten(s, f);
        PlainIsWritten(s, g);
        WrittenOnce(s, f, g);
      }
    }
  }

  // ----- options

  /** A mark that cannot overlap itself: two dashes, and no dash after them. */
  predicate IsMark(mark: string) {
    3 <= |mark| && mark[0] == mark[1] == '-' && forall j :: 2 <= j < |mark| ==> mark[j] != '-'
  }

  lemma Mismatch(s: string, mark: string, i: nat)
    requires i < |mark| && (i < |s| ==> s[i] != mark[i])
    ensures !StartsWith(s, mark)
  {
    assert |mark| <= |s| ==> s[..|mark|][i] == s[i];
  }

  lemma NotEarlier(x: string, mark: string, rest: string)
    requires IsMark(mark) && x != "" && !StartsWith(x, mark)
    ensures !StartsWith(x + (mark + rest), mark)
  {
    var s := x + (mark + rest);
    if |mark| <= |x| {
      assert s[..|mark|] == x[..|mark|];
    } else {
      assert s[|x|] == mark[0] && s[|x| + 1] == mark[1];
      Mismatch(s, mark, if |x| == 1 then 2 else |x|);
    }
  }

  /** A text is cut at the mark's first occurrence. */
  lemma {:induction false} CutAt(x: string, mark: string, rest: string)
    requires IsMark(mark) && !Occurs(x, mark)
    ensures Until(x + (mark + rest), mark) == x
    decreases |x|
  {
    var s := x + (mark + rest);
    if x == "" {
      assert s == mark + rest && s[..|mark|] == mark;
    } else {
      NotEarlier(x, mark, rest);
      CutAt(x[1..], mark, rest);
      assert s[1..] == x[1..] + (mark + rest) && s[0] == x[0];
      assert x == [x[0]] + x[1..];
    }
  }

  lemma {:induction false} NotCut(x: string, mark: string)
    requires mark != "" && !Occurs(x, mark)
    ensures Until(x, mark) == x
    decreases |x|
  {
    if x != "" {
      NotCut(x[1..], mark);
      assert x == [x[0]] + x[1..];
    }
  }

  /** What comes after "--established" does not count, nor what comes after "--tracked" then. */
  lemma OptionsCut(x: string, rest: string)
    ensures !Occurs(x, "--established") ==> Parts(x + ("--established" + rest)) == Parts(x)
    ensures var s := x + ("--tracked" + rest);
      !Occurs(s, "--established") && !Occurs(x, "--tracked") ==> Parts(s) == Split(x)
    ensures !Occurs(x, "--established") && !Occurs(x, "--tracked") ==> Parts(x) == Split(x)
  {
    if !Occurs(x, "--established") {
      CutAt(x, "--established", rest);
      NotCut(x, "--established");
    }
    var s := x + ("--tracked" + rest);
    if !Occurs(s, "--established") { NotCut(s, "--established"); }
    if !Occurs(x, "--tracked") {
      CutAt(x, "--tracked", rest);
      NotCut(x, "--tracked");
    }
  }

  // ----- protocols

  /** What the first part of a service text names: two protocols, the one of a remote procedure call, the
      one with a number, or itself. */
  predicate Names(p: string, q: string, byNumber: nat -> Option<string>) {
    if p == "tcp-udp" then q == "tcp" || q == "udp"
    else if p in {"tcp-ms-rpc", "tcp-sun-rpc", "udp-ms-rpc", "udp-sun-rpc"} then p[..4] == q + "-"
    else if IsNumeral(p) && Value(p) <= 2147483647 then byNumber(Value(p)) == Some(q)
    else q == p
  }

  predicate IsNumeral(p: string) {
    p != "" && All(IsDigit, p)
  }

  lemma BeforeDash(q: string, head: string)
    requires |head| == 3
    ensures head + "-" == q + "-" <==> q == head
  {
    assert (head + "-")[..3] == head && |q + "-"| == |q| + 1 && (q + "-")[..|q|] == q;
  }

  lemma RpcProtocols(p: string, q: string, byNumber: nat -> Option<string>)
    requires p in {"tcp-ms-rpc", "tcp-sun-rpc", "udp-ms-rpc", "udp-sun-rpc"}
    ensures q in Protocols(p, byNumber) <==> p[..4] == q + "-"
  {
    var head := if p[0] == 't' then "tcp" else "udp";
    assert p[..4] == head + "-";
    BeforeDash(q, head);
  }

  lemma ProtocolsAreNamed(p: string, q: string, byNumber: nat -> Option<string>)
    ensures q in Protocols(p, byNumber) <==> Names(p, q, byNumber)
  {
    if p in {"tcp-ms-rpc", "tcp-sun-rpc", "udp-ms-rpc", "udp-sun-rpc"} { RpcProtocols(p, q, byNumber); }
  }

  // ----- a service's rows

  /** A third part, and what may follow it. */
  lemma LastPart(dst: string, tail: string)
    requires All(NotColon, dst) && (tail == "" || tail[0] == ':')
    ensures Split(dst + tail)[0] == dst
  {
    if tail == "" {
      SplitLast(dst);
      assert dst + tail == dst;
    } else {
      SplitFirst(dst, tail[1..]);
      assert tail == [':'] + tail[1..];
    }
  }

  lemma ThreeParts(data: string, p: string, src: string, dst: string, tail: string)
    requires All(NotColon, p) && All(NotColon, src) && All(NotColon, dst) && (tail == "" || tail[0] == ':')
    requires Until(Until(data, "--established"), "--tracked") == p + ([':'] + (src + ([':'] + (dst + tail))))
    ensures Parts(data)[0] == p && SrcText(Parts(data)) == src && DstText(Parts(data)) == dst
  {
    SplitFirst(p, src + ([':'] + (dst + tail)));
    SplitFirst(src, dst + tail);
    LastPart(dst, tail);
  }

  lemma RowsOfParts(service: string, data: string, byNumber: nat -> Option<string>,
                    p: string, src: string, dst: string, q: string, s: nat, d: nat)
    requires Parts(data)[0] == p && SrcText(Parts(data)) == src && DstText(Parts(data)) == dst
    requires Exact(src) && Exact(dst) && s < PORTS && d < PORTS
    ensures Denotes(RowsOf(service, data, byNumber), service, q, s, d) <==>
            Names(p, q, byNumber) && Means(src, s) && Means(dst, d)
  {
    RowsDenote(service, Protocols(p, byNumber), Converted(Alias(src)), Converted(Alias(dst)), q, s, d);
    ProtocolsAreNamed(p, q, byNumber);
    MeansIsConverted(src, s);
    MeansIsConverted(dst, d);
  }

  /** The rows of `protocol:source:destination`, whatever other parts follow, allow exactly the service's
      protocols, from exactly the source ports named to exactly the destination ports named. */
  lemma RowsMeanService(service: string, data: string, byNumber: nat -> Option<string>,
                        p: string, src: string, dst: string, tail: string, q: string, s: nat, d: nat)
    requires All(NotColon, p) && All(NotColon, src) && All(NotColon, dst) && (tail == "" || tail[0] == ':')
    requires Until(Until(data, "--established"), "--tracked") == p + ([':'] + (src + ([':'] + (dst + tail))))
    requires Exact(src) && Exact(dst) && s < PORTS && d < PORTS
    ensures Denotes(RowsOf(service, data, byNumber), service, q, s, d) <==>
            Names(p, q, byNumber) && Means(src, s) && Means(dst, d)
  {
    ThreeParts(data, p, src, dst, tail);
    RowsOfParts(service, data, byNumber, p, src, dst, q, s, d);
  }

  lemma NoPortParts(data: string, p: string, x: string, alone: bool)
    requires All(NotColon, p) && All(NotColon, x)
    requires Until(Until(data, "--established"), "--tracked") == if alone then p else p + ([':'] + x)
    ensures Parts(data)[0] == p && SrcText(Parts(data)) == DstText(Parts(data)) == ""
  {
    SplitLast(p);
    SplitLast(x);
    SplitFirst(p, x);
  }

  /** Without two colons the rows allow the service's protocols between any ports. */
  lemma RowsWithoutPorts(service: string, data: string, byNumber: nat -> Option<string>,
                         p: string, x: string, alone: bool, q: string, s: nat, d: nat)
    requires All(NotColon, p) && All(NotColon, x) && s < PORTS && d < PORTS
    requires Until(Until(data, "--established"), "--tracked") == if alone then p else p + ([':'] + x)
    ensures Denotes(RowsOf(service, data, byNumber), service, q, s, d) <==> Names(p, q, byNumber)
  {
    NoPortParts(data, p, x, alone);
    EmptyIsAny();
    RowsOfParts(service, data, byNumber, p, "", "", q, s, d);
  }

  lemma EmptyIsAny()
    ensures Alias("") == ""
  {
  }

  lemma {:induction false} ProtocolListed(service: string, protocols: seq<string>, src: Ports, dst: Ports, q: string)
    ensures ProtocolRow(service, q) in RowsFor(service, protocols, src, dst) <==> q in protocols
    decreases |protocols|
  {
    if protocols != [] {
      var n := |protocols| - 1;
      ProtocolListed(service, protocols[..n], src, dst, q);
      assert protocols == protocols[..n] + [protocols[n]];
    }
  }

  /** The service is listed with exactly the protocols it names. */
  lemma ProtocolsListed(service: string, data: string, byNumber: nat -> Option<string>, q: string)
    ensures ProtocolRow(service, q) in RowsOf(service, data, byNumber) <==> Names(Parts(data)[0], q, byNumber)
  {
    var parts := Parts(data);
    ProtocolListed(service, Protocols(parts[0], byNumber),
                   Converted(Alias(SrcText(parts))), Converted(Alias(DstText(parts))), q);
    ProtocolsAreNamed(parts[0], q, byNumber);
  }
}
