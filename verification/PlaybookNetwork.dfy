/** What the executed setup and teardown commands of a run do to the host's network. */
module PlaybookNetwork {
  import opened Common
  import opened PlaybookModel
  import opened PlaybookTrace
  import PlaybookNesting

  /** VLAN links that were added, interfaces with a changed MAC, links that are up, interfaces with each
      IPv6 router-advertisement setting, addresses and routes that were added. */
  datatype Net = Net(
    vlans: set<string>, macs: set<string>, up: set<string>, autoconf: set<string>, acceptRa: set<string>,
    addrs: set<(string, string)>, routes: set<(string, string)>, defaults: set<string>)

  /** Each command as one that succeeds. */
  function Effect(net: Net, c: Command): Net {
    match c
    case AddVlan(_, name, _) => net.(vlans := net.vlans + {name})
    case DelLink(name) => net.(vlans := net.vlans - {name})
    case SetAutoconf(key, on) => net.(autoconf := if on then net.autoconf + {key} else net.autoconf - {key})
    case SetAcceptRa(key, on) => net.(acceptRa := if on then net.acceptRa + {key} else net.acceptRa - {key})
    case AddAddr(addr, dev) => net.(addrs := net.addrs + {(addr, dev)})
    case DelAddr(addr, dev) => net.(addrs := net.addrs - {(addr, dev)})
    case AddRoute(dst, dev) => net.(routes := net.routes + {(dst, dev)})
    case DelRoute(dst, dev) => net.(routes := net.routes - {(dst, dev)})
    case AddDefault(via) => net.(defaults := net.defaults + {via})
    case DelDefault(via) => net.(defaults := net.defaults - {via})
    case LinkUp(dev) => net.(up := net.up + {dev})
    case LinkDown(dev) => net.(up := net.up - {dev})
    case SetMac(_, dev) => net.(macs := net.macs + {dev})
    case ResetMac(dev) => net.(macs := net.macs - {dev})
    case _ => net
  }

  /** The commands in the middle of setting up, or tearing down, an address. */
  predicate TouchesAddress(c: Command) {
    c.SetAutoconf? || c.SetAcceptRa? || c.AddAddr? || c.DelAddr?
  }

  ghost predicate HasAddress(net: Net, dev: string) {
    exists p :: p in net.addrs && p.1 == dev
  }

  /** What holds after every single command. */
  ghost predicate Safe(net: Net, last: Command) {
    && |net.defaults| <= 1 && |net.vlans| <= 1 && |net.addrs| <= 1 && |net.routes| <= 1
    && (net.defaults != {} ==> net.routes != {}) && (net.routes != {} ==> net.addrs != {})
    && (forall p :: p in net.addrs ==> p.1 in net.up)
    && (forall dev {:trigger dev in net.up} ::
      dev in net.up && SysctlName(dev) in net.acceptRa ==> SysctlName(dev) in net.autoconf)
    && (!TouchesAddress(last) ==> forall dev {:trigger dev in net.up} :: dev in net.up ==>
         && (SysctlName(dev) in net.acceptRa <==> HasAddress(net, dev))
         && (SysctlName(dev) in net.autoconf <==> HasAddress(net, dev)))
  }

  /** The network after `commands`, if it was safe after each of them. */
  ghost function Walk(net: Net, commands: seq<Command>): Option<Net>
    decreases commands
  {
    if commands == [] then Some(net)
    else
      var next := Effect(net, commands[0]);
      if Safe(next, commands[0]) then Walk(next, commands[1..]) else None
  }

  lemma {:induction false} WalkConcat(net: Net, a: seq<Command>, b: seq<Command>)
    ensures Walk(net, a + b) ==
      match Walk(net, a) case None => None case Some(mid) => Walk(mid, b)
    decreases a
  {
    if a == [] {
      assert a + b == b;
    } else {
      assert (a + b)[0] == a[0] && (a + b)[1..] == a[1..] + b;
      if Safe(Effect(net, a[0]), a[0]) { WalkConcat(Effect(net, a[0]), a[1..], b); }
    }
  }

  lemma WalkStep(net: Net, c: Command, rest: seq<Command>)
    requires Safe(Effect(net, c), c)
    ensures Walk(net, [c] + rest) == Walk(Effect(net, c), rest)
  {
    assert ([c] + rest)[1..] == rest;
  }

  lemma WalkTwo(net: Net, a: Command, b: Command)
    requires Safe(Effect(net, a), a) && Safe(Effect(Effect(net, a), b), b)
    ensures Walk(net, [a, b]) == Some(Effect(Effect(net, a), b))
  {
    assert [a, b] == [a] + ([b] + []);
    WalkStep(net, a, [b] + []);
    WalkStep(Effect(net, a), b, []);
  }

  lemma WalkFour(net: Net, a: Command, b: Command, c: Command, d: Command)
    requires Safe(Effect(net, a), a) && Safe(Effect(Effect(net, a), b), b)
    requires Safe(Effect(Effect(Effect(net, a), b), c), c)
    requires Safe(Effect(Effect(Effect(Effect(net, a), b), c), d), d)
    ensures Walk(net, [a, b, c, d]) == Some(Effect(Effect(Effect(Effect(net, a), b), c), d))
  {
    var mid := Effect(Effect(net, a), b);
    WalkTwo(net, a, b);
    WalkTwo(mid, c, d);
    WalkBoth(net, mid, [a, b], [c, d], [a, b, c, d]);
  }

  lemma WalkBoth(net: Net, mid: Net, x: seq<Command>, y: seq<Command>, both: seq<Command>)
    requires Walk(net, x) == Some(mid) && both == x + y
    ensures Walk(net, both) == Walk(mid, y)
  {
    WalkConcat(net, x, y);
  }

  /** `after` is `before` but for router-advertisement settings that were switched off. */
  ghost predicate Calmer(before: Net, after: Net) {
    && after == before.(autoconf := after.autoconf, acceptRa := after.acceptRa)
    && after.autoconf <= before.autoconf && after.acceptRa <= before.acceptRa
  }

  /** The acts keep the network safe throughout and leave it as it was, or calmer. */
  ghost predicate Restores(net: Net, acts: seq<Act>) {
    Walk(net, Setup(acts)).Some? && Calmer(net, Walk(net, Setup(acts)).value)
  }

  lemma RestoresConcat(net: Net, x: seq<Act>, y: seq<Act>)
    requires Restores(net, x) && Restores(Walk(net, Setup(x)).value, y)
    ensures Restores(net, x + y)
    ensures Walk(net, Setup(x + y)) == Walk(Walk(net, Setup(x)).value, Setup(y))
  {
    PlaybookNesting.SetupConcat(x, y);
    WalkConcat(net, Setup(x), Setup(y));
  }

  lemma RestoresWithin(net: Net, inside: Net, up: seq<Command>, body: seq<Act>, down: seq<Command>)
    requires NotPlays(up) == up && NotPlays(down) == down
    requires Walk(net, up) == Some(inside) && Restores(inside, body)
    requires var mid := Walk(inside, Setup(body)).value;
      Walk(mid, down).Some? && Calmer(net, Walk(mid, down).value)
    ensures Restores(net, [Within(up, body, down)])
  {
    PlaybookNesting.SetupOne(Within(up, body, down));
    WalkConcat(net, up + Setup(body), down);
    WalkConcat(net, up, Setup(body));
  }

  lemma WalkWithin(net: Net, inside: Net, up: seq<Command>, body: seq<Act>, down: seq<Command>)
    requires NotPlays(up) == up && NotPlays(down) == down
    requires Walk(net, up) == Walk(inside, Setup(body)) == Some(inside)
    requires Walk(inside, down) == Some(net)
    ensures Walk(net, Setup([Within(up, body, down)])) == Some(net)
  {
    PlaybookNesting.SetupOne(Within(up, body, down));
    WalkConcat(net, up + Setup(body), down);
    WalkConcat(net, up, Setup(body));
  }

  lemma WalkMore(net: Net, x: seq<Act>, y: seq<Act>)
    requires Walk(net, Setup(x)) == Walk(net, Setup(y)) == Some(net)
    ensures Walk(net, Setup(x + y)) == Some(net)
  {
    PlaybookNesting.SetupConcat(x, y);
    WalkConcat(net, Setup(x), Setup(y));
  }

  /** No address or route, no setting on for a link that is up, and no two such links share a setting. */
  ghost predicate Quiet(net: Net) {
    && net.addrs == {} && net.routes == {} && net.defaults == {} && |net.vlans| <= 1
    && (forall dev {:trigger dev in net.up} :: dev in net.up ==>
      SysctlName(dev) !in net.acceptRa && SysctlName(dev) !in net.autoconf)
    && (forall d, e {:trigger d in net.up, e in net.up} ::
      d in net.up && e in net.up && SysctlName(d) == SysctlName(e) ==> d == e)
  }

  lemma QuietSafe(net: Net, c: Command)
    requires Quiet(net)
    ensures Safe(net, c)
  {
  }

  lemma CalmerQuiet(net: Net, after: Net)
    requires Quiet(net) && Calmer(net, after)
    ensures Quiet(after)
  {
  }

  lemma Singleton<T>(x: T)
    ensures |{x}| == 1
  {
  }

  // ----- routers

  ghost predicate Addressed(net: Net, dev: string, addr: string) {
    && net.addrs == {(addr, dev)} && net.routes == {} && net.defaults == {} && |net.vlans| <= 1 && dev in net.up
    && (forall d {:trigger d in net.up} :: d in net.up ==> (SysctlName(d) in net.acceptRa <==> d == dev))
    && (forall d {:trigger d in net.up} :: d in net.up ==> (SysctlName(d) in net.autoconf <==> d == dev))
  }

  lemma AddressedSafe(net: Net, dev: string, addr: string, routes: set<(string, string)>, defaults: set<string>,
                      c: Command)
    requires Addressed(net, dev, addr) && |routes| <= 1 && |defaults| <= 1 && (defaults != {} ==> routes != {})
    ensures Safe(net.(routes := routes, defaults := defaults), c)
  {
    var p := (addr, dev);
    assert p in net.addrs;
    Singleton(p);
  }

  lemma RoutedSafe(net: Net, dev: string, addr: string, r: string, c: Command)
    requires Addressed(net, dev, addr)
    ensures Safe(net, c) && Safe(net.(routes := {(r, dev)}), c)
    ensures Safe(net.(routes := {(r, dev)}, defaults := {r}), c)
  {
    Singleton((r, dev));
    Singleton(r);
    AddressedSafe(net, dev, addr, {}, {}, c);
    AddressedSafe(net, dev, addr, {(r, dev)}, {}, c);
    AddressedSafe(net, dev, addr, {(r, dev)}, {r}, c);
    assert net == net.(routes := {}, defaults := {});
    assert net.(routes := {(r, dev)}) == net.(routes := {(r, dev)}, defaults := {});
  }

  lemma RouterUpWalk(net: Net, dev: string, addr: string, r: string)
    requires Addressed(net, dev, addr)
    ensures Walk(net, RouteUp(dev, r)) == Some(net.(routes := {(r, dev)}, defaults := {r}))
  {
    var inside := net.(routes := {(r, dev)}, defaults := {r});
    RoutesAdded(net, dev, addr, r);
    CacheFlushed(net, dev, addr, r);
    WalkBoth(net, inside, [AddRoute(r, dev), AddDefault(r)], [FlushCache, Sleep(500)], RouteUp(dev, r));
  }

  lemma RoutesAdded(net: Net, dev: string, addr: string, r: string)
    requires Addressed(net, dev, addr)
    ensures Walk(net, [AddRoute(r, dev), AddDefault(r)]) == Some(net.(routes := {(r, dev)}, defaults := {r}))
  {
    var routed := net.(routes := {(r, dev)});
    assert Effect(net, AddRoute(r, dev)) == routed && Effect(routed, AddDefault(r)) == routed.(defaults := {r});
    RoutedSafe(net, dev, addr, r, AddRoute(r, dev));
    RoutedSafe(net, dev, addr, r, AddDefault(r));
    WalkTwo(net, AddRoute(r, dev), AddDefault(r));
  }

  lemma CacheFlushed(net: Net, dev: string, addr: string, r: string)
    requires Addressed(net, dev, addr)
    ensures var inside := net.(routes := {(r, dev)}, defaults := {r});
      Walk(inside, [FlushCache, Sleep(500)]) == Some(inside)
  {
    RoutedSafe(net, dev, addr, r, FlushCache);
    RoutedSafe(net, dev, addr, r, Sleep(500));
    WalkTwo(net.(routes := {(r, dev)}, defaults := {r}), FlushCache, Sleep(500));
  }

  lemma RouterDownWalk(net: Net, dev: string, addr: string, r: string)
    requires Addressed(net, dev, addr)
    ensures Walk(net.(routes := {(r, dev)}, defaults := {r}), RouteDown(dev, r)) == Some(net)
  {
    var routed := net.(routes := {(r, dev)});
    var inside := routed.(defaults := {r});
    assert Effect(inside, DelDefault(r)) == routed && Effect(routed, DelRoute(r, dev)) == net;
    RoutedSafe(net, dev, addr, r, DelDefault(r));
    RoutedSafe(net, dev, addr, r, DelRoute(r, dev));
    RoutedSafe(net, dev, addr, r, FlushCache);
    RoutedSafe(net, dev, addr, r, Sleep(500));
    WalkFour(inside, DelDefault(r), DelRoute(r, dev), FlushCache, Sleep(500));
  }

  function RouterAct(conf: Conf, r: string): Act {
    Within(RouteUp(conf.link, r), [Network(conf.(router := r))], RouteDown(conf.link, r))
  }

  lemma NetworkWalk(net: Net, conf: Conf)
    ensures Walk(net, Setup([Network(conf)])) == Some(net)
  {
    PlaybookNesting.SetupOne(Network(conf));
  }

  lemma RouterActBetween(net: Net, inside: Net, conf: Conf, r: string)
    requires Walk(net, RouteUp(conf.link, r)) == Some(inside)
    requires Walk(inside, RouteDown(conf.link, r)) == Some(net)
    ensures Walk(net, Setup([RouterAct(conf, r)])) == Some(net)
  {
    PlaybookNesting.RouteNoPlays(conf.link, r);
    NetworkWalk(inside, conf.(router := r));
    WalkWithin(net, inside, RouteUp(conf.link, r), [Network(conf.(router := r))], RouteDown(conf.link, r));
  }

  lemma RouterActWalk(net: Net, conf: Conf, r: string)
    requires Addressed(net, conf.link, conf.addr)
    ensures Walk(net, Setup([RouterAct(conf, r)])) == Some(net)
  {
    RouterUpWalk(net, conf.link, conf.addr, r);
    RouterDownWalk(net, conf.link, conf.addr, r);
    RouterActBetween(net, net.(routes := {(r, conf.link)}, defaults := {r}), conf, r);
  }

  lemma {:induction false} RoutersWalk(net: Net, conf: Conf, routers: seq<string>)
    requires Addressed(net, conf.link, conf.addr)
    ensures Walk(net, Setup(RouterActs(conf, routers))) == Some(net)
  {
    if routers != [] {
      var n := |routers| - 1;
      RoutersWalk(net, conf, routers[..n]);
      RouterActWalk(net, conf, routers[n]);
      WalkMore(net, RouterActs(conf, routers[..n]), [RouterAct(conf, routers[n])]);
    }
  }

  // ----- addresses

  ghost function WithAddress(net: Net, dev: string, addr: string): Net {
    net.(autoconf := net.autoconf + {SysctlName(dev)}, acceptRa := net.acceptRa + {SysctlName(dev)},
         addrs := net.addrs + {(addr, dev)})
  }

  lemma AddrUpWalk(net: Net, dev: string, addr: string)
    requires Quiet(net) && dev in net.up
    ensures Walk(net, AddrUp(dev, addr)) == Some(WithAddress(net, dev, addr))
    ensures Addressed(WithAddress(net, dev, addr), dev, addr)
  {
    var key := SysctlName(dev);
    var inside := WithAddress(net, dev, addr);
    AddressedSafe(inside, dev, addr, {}, {}, AddAddr(addr, dev));
    AddressedSafe(inside, dev, addr, {}, {}, Sleep(500));
    assert inside == inside.(routes := {}, defaults := {});
    WalkFour(net, SetAutoconf(key, true), SetAcceptRa(key, true), AddAddr(addr, dev), Sleep(500));
  }

  lemma AddrDownWalk(net: Net, dev: string, addr: string)
    requires Quiet(net) && dev in net.up
    ensures Walk(WithAddress(net, dev, addr), AddrDown(dev, addr)) == Some(net)
  {
    var key := SysctlName(dev);
    var inside := WithAddress(net, dev, addr);
    QuietSafe(net, SetAutoconf(key, false));
    QuietSafe(net, Sleep(500));
    var one := Effect(inside, DelAddr(addr, dev));
    var two := Effect(one, SetAcceptRa(key, false));
    assert Effect(two, SetAutoconf(key, false)) == net;
    WalkFour(inside, DelAddr(addr, dev), SetAcceptRa(key, false), SetAutoconf(key, false), Sleep(500));
  }

  lemma AddrWalk(net: Net, conf: Conf, entry: IpEntry)
    requires Quiet(net) && conf.link in net.up
    ensures Walk(net, Setup([AddrActs(conf, entry)])) == Some(net)
  {
    var c := AddrConf(conf, entry);
    var inside := WithAddress(net, c.link, c.addr);
    var body := if c.scope == Intra then [Network(c)] else RouterActs(c, entry.source.routers);
    AddrUpWalk(net, c.link, c.addr);
    AddrDownWalk(net, c.link, c.addr);
    RoutersWalk(inside, c, entry.source.routers);
    WalkMore(inside, body, [Complete(c.source)]);
    PlaybookNesting.AddrNoPlays(c.link, c.addr);
    WalkWithin(net, inside, AddrUp(c.link, c.addr), body + [Complete(c.source)], AddrDown(c.link, c.addr));
  }

  lemma {:induction false} AddrsWalk(net: Net, conf: Conf, ips: seq<IpEntry>)
    requires Quiet(net) && conf.link in net.up
    ensures Walk(net, Setup(AddrsActs(conf, ips))) == Some(net)
  {
    if ips != [] {
      var n := |ips| - 1;
      AddrsWalk(net, conf, ips[..n]);
      AddrWalk(net, conf, ips[n]);
      WalkMore(net, AddrsActs(conf, ips[..n]), [AddrActs(conf, ips[n])]);
    }
  }

  // ----- links and MACs

  /** `dev` can be brought up: it is down, and shares no setting with a link that is up. */
  ghost predicate Ready(net: Net, dev: string) {
    && Quiet(net) && dev !in net.up
    && (forall d {:trigger d in net.up} :: d in net.up ==> SysctlName(d) != SysctlName(dev))
  }

  ghost function Lowered(net: Net, dev: string): Net {
    net.(autoconf := net.autoconf - {SysctlName(dev)}, acceptRa := net.acceptRa - {SysctlName(dev)})
  }

  ghost function Raised(net: Net, dev: string): Net {
    Lowered(net, dev).(up := net.up + {dev})
  }

  lemma RaiseWalk(net: Net, dev: string)
    requires Ready(net, dev)
    ensures Walk(net, RaiseLink(dev)) == Some(Raised(net, dev)) && Quiet(Raised(net, dev))
  {
    var key := SysctlName(dev);
    var one := Effect(net, SetAutoconf(key, false));
    assert Quiet(one) && Quiet(Lowered(net, dev)) && Quiet(Raised(net, dev));
    QuietSafe(one, SetAutoconf(key, false));
    QuietSafe(Lowered(net, dev), SetAcceptRa(key, false));
    QuietSafe(Raised(net, dev), LinkUp(dev));
    QuietSafe(Raised(net, dev), Sleep(1000));
    WalkFour(net, SetAutoconf(key, false), SetAcceptRa(key, false), LinkUp(dev), Sleep(1000));
  }

  lemma LowerWalk(net: Net, dev: string)
    requires Quiet(net)
    ensures Walk(net, LowerLink(dev)) == Some(net.(up := net.up - {dev}))
  {
    QuietSafe(net.(up := net.up - {dev}), LinkDown(dev));
    QuietSafe(net.(up := net.up - {dev}), Sleep(500));
    WalkTwo(net, LinkDown(dev), Sleep(500));
  }

  lemma LinkRestores(net: Net, dev: string, body: seq<Act>)
    requires Ready(net, dev) && Restores(Raised(net, dev), body)
    ensures Restores(net, [Within(RaiseLink(dev), body, LowerLink(dev))])
  {
    var mid := Walk(Raised(net, dev), Setup(body)).value;
    RaiseWalk(net, dev);
    CalmerQuiet(Raised(net, dev), mid);
    LowerWalk(mid, dev);
    assert mid.up - {dev} == net.up;
    PlaybookNesting.LinkNoPlays(dev);
    RestoresWithin(net, Raised(net, dev), RaiseLink(dev), body, LowerLink(dev));
  }

  ghost function WithMac(net: Net, dev: string, mac: string): Net {
    if mac == "" then net else net.(macs := net.macs + {dev})
  }

  lemma MacRestores(net: Net, dev: string, mac: string, body: seq<Act>)
    requires Quiet(net) && dev !in net.macs && Restores(WithMac(net, dev, mac), body)
    ensures Restores(net, [Within(MacUp(dev, mac), body, MacDown(dev, mac))])
  {
    var inside := WithMac(net, dev, mac);
    var mid := Walk(inside, Setup(body)).value;
    if mac != "" {
      QuietSafe(inside, SetMac(mac, dev));
      QuietSafe(inside, Sleep(500));
      WalkTwo(net, SetMac(mac, dev), Sleep(500));
      var after := mid.(macs := mid.macs - {dev});
      CalmerQuiet(inside, mid);
      QuietSafe(after, ResetMac(dev));
      QuietSafe(after, Sleep(500));
      WalkTwo(mid, ResetMac(dev), Sleep(500));
      assert after.macs == net.macs;
    }
    PlaybookNesting.MacNoPlays(dev, mac);
    RestoresWithin(net, inside, MacUp(dev, mac), body, MacDown(dev, mac));
  }

  lemma CaptureWalk(net: Net, dev: string, seconds: nat)
    requires Quiet(net)
    ensures Walk(net, Setup(CaptureActs(dev, seconds))) == Some(net)
  {
    var c := Capture(dev, if seconds < 90 then 90 else seconds);
    PlaybookNesting.NotPlaysAll([c]);
    PlaybookNesting.SetupOne(Run([c]));
    QuietSafe(net, c);
    WalkStep(net, c, []);
    assert [c] + [] == [c];
  }

  lemma MacActsRestores(net: Net, conf: Conf, entry: MacEntry)
    requires Ready(net, conf.link) && conf.link !in net.macs
    ensures Restores(net, [MacActs(conf, entry)])
  {
    var c := conf.(mac := entry.mac);
    var changed := WithMac(net, c.link, c.mac);
    var up := Raised(changed, c.link);
    var capture := if c.vlan == NONE then CaptureActs(c.link, 90) else [];
    RaiseWalk(changed, c.link);
    CaptureWalk(up, c.link, 90);
    AddrsWalk(up, c, entry.ips);
    RestoresConcat(up, capture, AddrsActs(c, entry.ips));
    LinkRestores(changed, c.link, capture + AddrsActs(c, entry.ips));
    MacRestores(net, c.link, c.mac,
      [Within(RaiseLink(c.link), capture + AddrsActs(c, entry.ips), LowerLink(c.link))]);
  }

  lemma {:induction false} MacsRestores(net: Net, conf: Conf, macs: seq<MacEntry>)
    requires Ready(net, conf.link) && conf.link !in net.macs
    ensures Restores(net, MacsActs(conf, macs))
  {
    if macs != [] {
      var n := |macs| - 1;
      MacsRestores(net, conf, macs[..n]);
      var mid := Walk(net, Setup(MacsActs(conf, macs[..n]))).value;
      CalmerQuiet(net, mid);
      MacActsRestores(mid, conf, macs[n]);
      RestoresConcat(net, MacsActs(conf, macs[..n]), [MacActs(conf, macs[n])]);
    }
  }

  // ----- VLANs

  lemma VlanNameDiffers(iface: string, vlan: nat)
    ensures VlanName(iface, vlan) != iface && SysctlName(VlanName(iface, vlan)) != SysctlName(iface)
  {
    assert |VlanName(iface, vlan)| > |iface|;
  }

  /** No VLAN link, and only `iface` can be up or have its MAC changed. */
  ghost predicate OnlyIface(net: Net, iface: string) {
    Quiet(net) && net.vlans == {} && net.up <= {iface} && net.macs <= {iface}
  }

  lemma TaggedBodyRestores(net: Net, iface: string, conf: Conf, macs: seq<MacEntry>)
    requires OnlyIface(net, iface) && conf.link == VlanName(iface, conf.vlan)
    ensures var inside := net.(vlans := {conf.link});
      Restores(inside, MacsActs(conf, macs)) && Quiet(Walk(inside, Setup(MacsActs(conf, macs))).value)
  {
    var inside := net.(vlans := {conf.link});
    VlanNameDiffers(iface, conf.vlan);
    Singleton(conf.link);
    MacsRestores(inside, conf, macs);
    CalmerQuiet(inside, Walk(inside, Setup(MacsActs(conf, macs))).value);
  }

  lemma TaggedRestores(net: Net, scope: Scope, stage: nat, iface: string, entry: VlanEntry)
    requires OnlyIface(net, iface) && entry.vlan < RESERVED
    ensures Restores(net, [VlanActs(scope, stage, iface, entry)])
  {
    var conf := VlanConf(scope, stage, iface, entry.vlan);
    var body := MacsActs(conf, entry.macs);
    var inside := net.(vlans := {conf.link});
    TaggedBodyRestores(net, iface, conf, entry.macs);
    AddVlanWalk(net, iface, entry.vlan);
    DelVlanWalk(Walk(inside, Setup(body)).value, iface, entry.vlan);
    PlaybookNesting.VlanNoPlays(iface, entry.vlan);
    RestoresWithin(net, inside, VlanUp(iface, entry.vlan), body, VlanDown(iface, entry.vlan));
  }

  lemma AddVlanWalk(net: Net, iface: string, vlan: nat)
    requires Quiet(net) && net.vlans == {} && vlan < RESERVED
    ensures Walk(net, VlanUp(iface, vlan)) == Some(net.(vlans := {VlanName(iface, vlan)}))
  {
    var name := VlanName(iface, vlan);
    var inside := net.(vlans := {name});
    Singleton(name);
    QuietSafe(inside, AddVlan(iface, name, vlan));
    QuietSafe(inside, Sleep(250));
    assert net.vlans + {name} == {name};
    WalkTwo(net, AddVlan(iface, name, vlan), Sleep(250));
  }

  lemma DelVlanWalk(net: Net, iface: string, vlan: nat)
    requires Quiet(net) && net.vlans == {VlanName(iface, vlan)} && vlan < RESERVED
    ensures Walk(net, VlanDown(iface, vlan)) == Some(net.(vlans := {}))
  {
    var name := VlanName(iface, vlan);
    var after := net.(vlans := {});
    assert net.vlans - {name} == {};
    QuietSafe(after, DelLink(name));
    QuietSafe(after, Sleep(250));
    WalkTwo(net, DelLink(name), Sleep(250));
  }

  lemma VlanRestores(net: Net, scope: Scope, stage: nat, iface: string, entry: VlanEntry)
    requires OnlyIface(net, iface)
    requires entry.vlan == NONE ==> iface !in net.up && iface !in net.macs
    ensures Restores(net, [VlanActs(scope, stage, iface, entry)])
  {
    if entry.vlan < RESERVED {
      TaggedRestores(net, scope, stage, iface, entry);
    } else {
      OtherVlanRestores(net, scope, stage, iface, entry);
    }
  }

  lemma OtherVlanRestores(net: Net, scope: Scope, stage: nat, iface: string, entry: VlanEntry)
    requires OnlyIface(net, iface) && entry.vlan >= RESERVED
    requires entry.vlan == NONE ==> iface !in net.up && iface !in net.macs
    ensures Restores(net, [VlanActs(scope, stage, iface, entry)])
  {
    var conf := VlanConf(scope, stage, iface, entry.vlan);
    var body := if ValidVlan(entry.vlan) then MacsActs(conf, entry.macs) else [];
    if entry.vlan == NONE { MacsRestores(net, conf, entry.macs); }
    var mid := Walk(net, Setup(body)).value;
    CalmerQuiet(net, mid);
    if entry.vlan == RESERVED {
      assert Effect(mid, DelLink("")) == mid;
      QuietSafe(mid, DelLink(""));
      QuietSafe(mid, Sleep(250));
      WalkTwo(mid, DelLink(""), Sleep(250));
    }
    PlaybookNesting.VlanNoPlays(iface, entry.vlan);
    RestoresWithin(net, net, VlanUp(iface, entry.vlan), body, VlanDown(iface, entry.vlan));
  }

  lemma {:induction false} VlansRestore(net: Net, scope: Scope, stage: nat, iface: string, vlans: seq<VlanEntry>,
                                        tagged: bool)
    requires OnlyIface(net, iface) && (!tagged ==> net.up == {} && net.macs == {})
    ensures Restores(net, VlansActs(scope, stage, iface, vlans, tagged))
  {
    if vlans != [] {
      var n := |vlans| - 1;
      VlansRestore(net, scope, stage, iface, vlans[..n], tagged);
      var mid := Walk(net, Setup(VlansActs(scope, stage, iface, vlans[..n], tagged))).value;
      CalmerQuiet(net, mid);
      var more := if (vlans[n].vlan != NONE) == tagged then [VlanActs(scope, stage, iface, vlans[n])] else [];
      if more != [] { VlanRestores(mid, scope, stage, iface, vlans[n]); }
      RestoresConcat(net, VlansActs(scope, stage, iface, vlans[..n], tagged), more);
    }
  }

  // ----- interfaces and stages

  /** Links down, no VLAN, address or route that the run added, permanent MACs. */
  ghost predicate Clean(net: Net) {
    net.vlans == net.macs == net.up == net.defaults == {} && net.addrs == net.routes == {}
  }

  lemma IfaceRestores(run: Settings, net: Net, scope: Scope, stage: nat, entry: IfaceEntry)
    requires Clean(net) && NoEmptyLevel(entry)
    ensures Restores(net, IfaceActs(run, scope, stage, entry))
  {
    var iface, mac := entry.name, entry.vlans[0].macs[0].mac;
    var changed := WithMac(net, iface, mac);
    var up := Raised(changed, iface);
    var capture := CaptureActs(iface, run.captureSeconds);
    var tagged := VlansActs(scope, stage, iface, entry.vlans, true);
    var link := Within(RaiseLink(iface), capture + tagged, LowerLink(iface));
    var whole := Within(MacUp(iface, mac), [link], MacDown(iface, mac));
    RaiseWalk(changed, iface);
    CaptureWalk(up, iface, run.captureSeconds);
    VlansRestore(up, scope, stage, iface, entry.vlans, true);
    RestoresConcat(up, capture, tagged);
    LinkRestores(changed, iface, capture + tagged);
    MacRestores(net, iface, mac, [link]);
    var mid := Walk(net, Setup([whole])).value;
    VlansRestore(mid, scope, stage, iface, entry.vlans, false);
    RestoresConcat(net, [whole], VlansActs(scope, stage, iface, entry.vlans, false));
  }

  lemma {:induction false} StageRestores(run: Settings, net: Net, scope: Scope, stage: nat, ifaces: seq<IfaceEntry>)
    requires Clean(net) && forall i :: i in ifaces ==> NoEmptyLevel(i)
    ensures Restores(net, StageActs(run, scope, stage, ifaces))
  {
    if ifaces != [] {
      var n := |ifaces| - 1;
      StageRestores(run, net, scope, stage, ifaces[..n]);
      var mid := Walk(net, Setup(StageActs(run, scope, stage, ifaces[..n]))).value;
      assert ifaces[n] in ifaces;
      IfaceRestores(run, mid, scope, stage, ifaces[n]);
      RestoresConcat(net, StageActs(run, scope, stage, ifaces[..n]), IfaceActs(run, scope, stage, ifaces[n]));
    }
  }

  lemma {:induction false} StagesRestore(run: Settings, net: Net, scope: Scope, stages: seq<StageEntry>)
    requires Clean(net) && forall s :: s in stages ==> WellFormedStage(s)
    ensures Restores(net, StagesActs(run, scope, stages))
    decreases stages
  {
    if stages != [] {
      assert WellFormedStage(stages[0]);
      var first := StageActs(run, scope, stages[0].number, stages[0].ifaces);
      StageRestores(run, net, scope, stages[0].number, stages[0].ifaces);
      StagesRestore(run, Walk(net, Setup(first)).value, scope, stages[1..]);
      RestoresConcat(net, first, StagesActs(run, scope, stages[1..]));
    }
  }

  /** In a run that executes and excludes no command, whatever the plays do, if the commands of the
      setup and teardown blocks succeed: the network is safe after every one of them, and after the run
      it is clean again, with no router-advertisement setting on that was off before. */
  lemma RunIsSafeAndClean(run: Settings, scope: Scope, playbook: seq<StageEntry>, net: Net)
    requires run.execute && run.disabled == {} && Clean(net)
    requires forall s :: s in playbook ==> WellFormedStage(s)
    ensures var after := Walk(net, Executed(RunPlaybook(run, scope, playbook).log));
      after.Some? && Clean(after.value) && Calmer(net, after.value)
  {
    PlaybookAdds(run, scope, playbook);
    StagesRestore(run, net, scope, StagesRun(run, playbook));
  }

  /** The same at the end of each stage, started with the log of the stages before it. */
  lemma StageIsSafeAndClean(run: Settings, scope: Scope, stage: StageEntry, net: Net, st: State)
    requires run.execute && run.disabled == {} && st.execute && Clean(net) && WellFormedStage(stage)
    ensures var after := RunActs(run, StageActs(run, scope, stage.number, stage.ifaces), st);
      exists more :: Executed(after.log) == Executed(st.log) + more &&
        Walk(net, more).Some? && Clean(Walk(net, more).value) && Calmer(net, Walk(net, more).value)
  {
    var acts := StageActs(run, scope, stage.number, stage.ifaces);
    RunActsAdds(run, acts, st);
    StageRestores(run, net, scope, stage.number, stage.ifaces);
  }
}
